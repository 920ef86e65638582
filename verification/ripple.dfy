/**
 * The Ripple behaviour as functions on a board: every cube within
 * `radius` of an active cube takes the sum of the sources' wave terms,
 * every other cube decays; no `active` flag ever changes.
 */
module RippleRules {
  import opened Cubes

  /** The properties Ripple adds to the grid. */
  datatype Profile = Profile(amplitude: real, radius: real)

  /** `range <= radius` for the cube at `p` and source `a`, stated without square roots. */
  predicate InRadius(p: Pos, a: Cube, radius: real)
  {
    0.0 <= radius && DistSq(p, PosOf(a)) as real <= radius * radius
  }

  /** amplitude / (range + 1) * sin(phase + range), with phase = 2 * pi * cur_frac. */
  function Wave(sin: real -> real, amplitude: real, range: real, phase: real): real
    requires 0.0 <= range
  {
    amplitude / (range + 1.0) * sin(phase + range)
  }

  /** The inner loop of Ripple.mainBehaviour for the cube at `p`. */
  function RippleInfluence(sqrt: nat -> real, sin: real -> real, p: Pos, srcs: seq<Cube>, s: Profile, phase: real): Tally
    requires IsSqrt(sqrt)
    decreases |srcs|
  {
    if srcs == [] then Tally(0, 0.0)
    else
      var t := RippleInfluence(sqrt, sin, p, srcs[..|srcs| - 1], s, phase);
      var range := CubeDistance(sqrt, p, PosOf(srcs[|srcs| - 1]));
      if range <= s.radius then Tally(t.count + 1, t.sum + Wave(sin, s.amplitude, range, phase)) else t
  }

  /** The range test of the loop is exactly InRadius. */
  lemma InRadiusExact(sqrt: nat -> real, p: Pos, a: Cube, radius: real)
    requires IsSqrt(sqrt)
    ensures CubeDistance(sqrt, p, PosOf(a)) <= radius <==> InRadius(p, a, radius)
  {
    WithinIffSquared(sqrt, DistSq(p, PosOf(a)), radius);
  }

  /**
   * A cube is counted exactly when some source is within `radius` of it,
   * and never more often than there are sources.
   */
  lemma {:induction false} RippleCount(sqrt: nat -> real, sin: real -> real, p: Pos, srcs: seq<Cube>, s: Profile, phase: real)
    requires IsSqrt(sqrt)
    ensures RippleInfluence(sqrt, sin, p, srcs, s, phase).count <= |srcs|
    ensures RippleInfluence(sqrt, sin, p, srcs, s, phase).count > 0 <==>
      exists i :: 0 <= i < |srcs| && InRadius(p, srcs[i], s.radius)
    decreases |srcs|
  {
    if srcs != [] {
      var init := srcs[..|srcs| - 1];
      var a := srcs[|srcs| - 1];
      RippleCount(sqrt, sin, p, init, s, phase);
      InRadiusExact(sqrt, p, a, s.radius);
      if exists i :: 0 <= i < |init| && InRadius(p, init[i], s.radius) {
        var i :| 0 <= i < |init| && InRadius(p, init[i], s.radius);
        assert srcs[i] == init[i];
      }
      if exists i :: 0 <= i < |srcs| && InRadius(p, srcs[i], s.radius) {
        var i :| 0 <= i < |srcs| && InRadius(p, srcs[i], s.radius);
        if i < |init| {
          assert init[i] == srcs[i];
        }
      }
    }
  }

  /** `sin` takes values in [-1, 1]. */
  ghost predicate SineBounded(sin: real -> real)
  {
    forall x :: -1.0 <= sin(x) <= 1.0
  }

  /** With a non-negative amplitude one wave term lies in [-amplitude, amplitude]. */
  lemma WaveBound(sin: real -> real, amplitude: real, range: real, phase: real)
    requires SineBounded(sin) && 0.0 <= amplitude && 0.0 <= range
    ensures -amplitude <= Wave(sin, amplitude, range, phase) <= amplitude
  {
    var k := amplitude / (range + 1.0);
    assert 0.0 <= k <= amplitude by {
      assert k * (range + 1.0) == amplitude;
      assert k * range >= 0.0;
    }
    var v := sin(phase + range);
    assert -1.0 <= v <= 1.0;
    assert k * v <= k by {
      assert k * (1.0 - v) >= 0.0;
    }
    assert -k <= k * v by {
      assert k * (1.0 + v) >= 0.0;
    }
  }

  /** The summed height of a counted cube lies within count * amplitude of 0. */
  lemma {:induction false} RippleBounds(sqrt: nat -> real, sin: real -> real, p: Pos, srcs: seq<Cube>, s: Profile, phase: real)
    requires IsSqrt(sqrt) && SineBounded(sin) && 0.0 <= s.amplitude
    ensures -(RippleInfluence(sqrt, sin, p, srcs, s, phase).count as real * s.amplitude)
      <= RippleInfluence(sqrt, sin, p, srcs, s, phase).sum
      <= RippleInfluence(sqrt, sin, p, srcs, s, phase).count as real * s.amplitude
    decreases |srcs|
  {
    if srcs != [] {
      var init := srcs[..|srcs| - 1];
      var t := RippleInfluence(sqrt, sin, p, init, s, phase);
      RippleBounds(sqrt, sin, p, init, s, phase);
      var range := CubeDistance(sqrt, p, PosOf(srcs[|srcs| - 1]));
      if range <= s.radius {
        var w := Wave(sin, s.amplitude, range, phase);
        WaveBound(sin, s.amplitude, range, phase);
        ScaleStep(t.count, s.amplitude);
        var r := RippleInfluence(sqrt, sin, p, srcs, s, phase);
        assert r.sum == t.sum + w && r.count == t.count + 1;
      } else {
        assert RippleInfluence(sqrt, sin, p, srcs, s, phase) == t;
      }
    }
  }

  /**
   * One cube after Ripple.mainBehaviour: only its height changes; with no
   * source within radius it decays by 0.85, otherwise it takes the summed
   * wave terms.
   */
  function RippleCube(sqrt: nat -> real, sin: real -> real, c: Cube, srcs: seq<Cube>, s: Profile, phase: real): (r: Cube)
    requires IsSqrt(sqrt)
    ensures r == c.(raiseHeight := r.raiseHeight)
    ensures (forall i :: 0 <= i < |srcs| ==> !InRadius(PosOf(c), srcs[i], s.radius)) ==>
      r.raiseHeight == c.raiseHeight * Decay
    ensures (exists i :: 0 <= i < |srcs| && InRadius(PosOf(c), srcs[i], s.radius)) ==>
      r.raiseHeight == RippleInfluence(sqrt, sin, PosOf(c), srcs, s, phase).sum
  {
    RippleCount(sqrt, sin, PosOf(c), srcs, s, phase);
    c.(raiseHeight := Settle(c.raiseHeight, RippleInfluence(sqrt, sin, PosOf(c), srcs, s, phase)))
  }

  /** The board after the loops of Ripple.mainBehaviour over the sources `srcs`. */
  function RippleAll(sqrt: nat -> real, sin: real -> real, b: Board, srcs: seq<Cube>, s: Profile, phase: real): (r: Board)
    requires IsSqrt(sqrt) && Rect(b)
    ensures Rect(r) && SameShape(r, b) && Rows(r) == Rows(b)
    ensures forall q :: InGrid(b, q) ==> At(r, q) == RippleCube(sqrt, sin, At(b, q), srcs, s, phase)
  {
    seq(|b|, c requires 0 <= c < |b| =>
      seq(|b[c]|, n requires 0 <= n < |b[c]| => RippleCube(sqrt, sin, b[c][n], srcs, s, phase)))
  }

  /** Ripple.mainBehaviour: the wave pass over the current active cubes. */
  function RippleFrame(sqrt: nat -> real, sin: real -> real, b: Board, s: Profile, phase: real): (r: Board)
    requires IsSqrt(sqrt) && Rect(b)
    ensures Rect(r) && SameShape(r, b) && Rows(r) == Rows(b)
    ensures forall q :: InGrid(b, q) ==> At(r, q) == RippleCube(sqrt, sin, At(b, q), ActiveCubes(b), s, phase)
  {
    RippleAll(sqrt, sin, b, ActiveCubes(b), s, phase)
  }

  /** Ripple never changes an `active` flag, nor anything but heights. */
  lemma RippleKeepsActive(sqrt: nat -> real, sin: real -> real, b: Board, s: Profile, phase: real)
    requires IsSqrt(sqrt) && Rect(b)
    ensures forall q :: InGrid(b, q) ==>
      At(RippleFrame(sqrt, sin, b, s, phase), q) == At(b, q).(raiseHeight := At(RippleFrame(sqrt, sin, b, s, phase), q).raiseHeight)
    ensures ActivePositions(RippleFrame(sqrt, sin, b, s, phase)) == ActivePositions(b)
  {
    SameActivity(RippleFrame(sqrt, sin, b, s, phase), b);
  }

  /**
   * With a bounded sine and a non-negative amplitude, a cube within radius
   * of some active cube ends at most (number of active cubes) * amplitude
   * away from 0.
   */
  lemma RippleHeightBound(sqrt: nat -> real, sin: real -> real, b: Board, s: Profile, phase: real, q: Pos)
    requires IsSqrt(sqrt) && SineBounded(sin) && 0.0 <= s.amplitude && Rect(b) && InGrid(b, q)
    requires exists i :: 0 <= i < |ActiveCubes(b)| && InRadius(PosOf(At(b, q)), ActiveCubes(b)[i], s.radius)
    ensures -(ActiveCount(b) as real * s.amplitude) <= At(RippleFrame(sqrt, sin, b, s, phase), q).raiseHeight
    ensures At(RippleFrame(sqrt, sin, b, s, phase), q).raiseHeight <= ActiveCount(b) as real * s.amplitude
  {
    var srcs, c := ActiveCubes(b), At(b, q);
    RippleCubeBound(sqrt, sin, c, srcs, s, phase);
    var bound := |srcs| as real * s.amplitude;
    assert ActiveCount(b) as real * s.amplitude == bound;
    assert At(RippleFrame(sqrt, sin, b, s, phase), q).raiseHeight == RippleCube(sqrt, sin, c, srcs, s, phase).raiseHeight;
  }

  /** The height of one cube with a source in radius lies within |srcs| * amplitude of 0. */
  lemma RippleCubeBound(sqrt: nat -> real, sin: real -> real, c: Cube, srcs: seq<Cube>, s: Profile, phase: real)
    requires IsSqrt(sqrt) && SineBounded(sin) && 0.0 <= s.amplitude
    requires exists i :: 0 <= i < |srcs| && InRadius(PosOf(c), srcs[i], s.radius)
    ensures -(|srcs| as real * s.amplitude) <= RippleCube(sqrt, sin, c, srcs, s, phase).raiseHeight <= |srcs| as real * s.amplitude
  {
    var t := RippleInfluence(sqrt, sin, PosOf(c), srcs, s, phase);
    RippleCount(sqrt, sin, PosOf(c), srcs, s, phase);
    RippleBounds(sqrt, sin, PosOf(c), srcs, s, phase);
    SharesWithin(t.sum, t.count, |srcs|, s.amplitude);
    assert t.count > 0;
    assert RippleCube(sqrt, sin, c, srcs, s, phase).raiseHeight == Settle(c.raiseHeight, t) == t.sum;
  }

  /** Successive Ripple frames, one per phase. */
  function RippleFrames(sqrt: nat -> real, sin: real -> real, b: Board, s: Profile, phases: seq<real>): (r: Board)
    requires IsSqrt(sqrt) && Rect(b)
    ensures Rect(r) && SameShape(r, b) && Rows(r) == Rows(b)
    decreases |phases|
  {
    if phases == [] then b
    else RippleFrames(sqrt, sin, RippleFrame(sqrt, sin, b, s, phases[0]), s, phases[1..])
  }

  /** A height after n frames without a source in radius: n decays by 0.85. */
  function Decayed(h: real, n: nat): real
    decreases n
  {
    if n == 0 then h else Decayed(h * Decay, n - 1)
  }

  function Pow(x: real, n: nat): real
  {
    if n == 0 then 1.0 else x * Pow(x, n - 1)
  }

  /** Decayed is geometric: h * 0.85^n, and it never reaches 0 from a non-zero height. */
  lemma {:induction false} DecayedClosedForm(h: real, n: nat)
    ensures Decayed(h, n) == h * Pow(Decay, n)
    ensures h != 0.0 ==> Decayed(h, n) != 0.0
    decreases n
  {
    if n > 0 {
      DecayedClosedForm(h * Decay, n - 1);
      MulAssoc(h, Decay, Pow(Decay, n - 1));
    }
  }

  lemma MulAssoc(x: real, y: real, z: real)
    ensures (x * y) * z == x * (y * z)
  {
  }

  /**
   * With no active cube, n frames decay every height n times: heights fade
   * geometrically (DecayedClosedForm) and never reach exactly 0 from a
   * non-zero start.
   */
  lemma {:induction false} RippleFades(sqrt: nat -> real, sin: real -> real, b: Board, s: Profile, phases: seq<real>, q: Pos)
    requires IsSqrt(sqrt) && Rect(b) && ActiveCount(b) == 0 && InGrid(b, q)
    ensures At(RippleFrames(sqrt, sin, b, s, phases), q).raiseHeight == Decayed(At(b, q).raiseHeight, |phases|)
    decreases |phases|
  {
    if phases != [] {
      var b1 := RippleFrame(sqrt, sin, b, s, phases[0]);
      RippleDark(sqrt, sin, b, s, phases[0]);
      RippleFades(sqrt, sin, b1, s, phases[1..], q);
    }
  }

  /** With no active cube, one frame scales every height by 0.85 and leaves no cube active. */
  lemma RippleDark(sqrt: nat -> real, sin: real -> real, b: Board, s: Profile, phase: real)
    requires IsSqrt(sqrt) && Rect(b) && ActiveCount(b) == 0
    ensures ActiveCount(RippleFrame(sqrt, sin, b, s, phase)) == 0
    ensures forall q :: InGrid(b, q) ==>
      At(RippleFrame(sqrt, sin, b, s, phase), q).raiseHeight == At(b, q).raiseHeight * Decay
  {
    RippleKeepsActive(sqrt, sin, b, s, phase);
    assert ActiveCubes(b) == [];
  }

  /**
   * Ripple.setRandomActive: the cell floor(rows * r1), floor(cols * r2)
   * for draws in [0, 1); it is always inside a non-empty grid.
   */
  function RandomCell(b: Board, rowDraw: real, colDraw: real): (p: Pos)
    requires Rect(b) && |b| > 0 && Rows(b) > 0
    requires 0.0 <= rowDraw < 1.0 && 0.0 <= colDraw < 1.0
    ensures InGrid(b, p)
    ensures p.row as real <= Rows(b) as real * rowDraw < p.row as real + 1.0
    ensures p.col as real <= |b| as real * colDraw < p.col as real + 1.0
  {
    assert 0.0 <= Rows(b) as real * rowDraw < Rows(b) as real;
    assert 0.0 <= |b| as real * colDraw < |b| as real;
    Pos((Rows(b) as real * rowDraw).Floor, (|b| as real * colDraw).Floor)
  }
}
