/**
 * The RandomPropagation behaviour as functions on a board: edge-cube
 * classification, the snapshot-then-move pass (_propagateActive), the
 * raise pass (_raiseAdjacentCubes) and the random spawn (setRandomActive).
 */
module PropagationRules {
  import opened Cubes

  // ---------------------------------------------------------------------
  // initCubeProperties: edge classification
  // ---------------------------------------------------------------------

  predicate IsCorner(maxRow: int, maxCol: int, row: int, col: int)
  {
    (row == 0 || row == maxRow - 1) && (col == 0 || col == maxCol - 1)
  }

  /** A cell on the boundary of a maxRow x maxCol grid that is not one of its corners. */
  predicate IsEdgeCell(maxRow: int, maxCol: int, row: int, col: int)
  {
    (row == 0 || row == maxRow - 1 || col == 0 || col == maxCol - 1)
    && !IsCorner(maxRow, maxCol, row, col)
  }

  /**
   * The vector initCubeProperties gives the cube at (row, col), if any:
   * corners are skipped and the first matching rule wins.
   */
  function EdgeVector(maxRow: int, maxCol: int, speed: int, row: int, col: int): (v: Option<Vec>)
    ensures v.Some? <==> IsEdgeCell(maxRow, maxCol, row, col)
    ensures v.Some? && row == 0 ==> v.value == Vec(speed, 0)
    ensures v.Some? && row != 0 && row == maxRow - 1 ==> v.value == Vec(-speed, 0)
    ensures v.Some? && row != 0 && row != maxRow - 1 && col == 0 ==> v.value == Vec(0, speed)
    ensures v.Some? && row != 0 && row != maxRow - 1 && col != 0 ==> v.value == Vec(0, -speed)
  {
    if !(row == 0 && col == 0)
      && !(row == 0 && col == maxCol - 1)
      && !(row == maxRow - 1 && col == 0)
      && !(row == maxRow - 1 && col == maxCol - 1)
    then
      if row == 0 then Some(Vec(speed, 0))
      else if row == maxRow - 1 then Some(Vec(-speed, 0))
      else if col == 0 then Some(Vec(0, speed))
      else if col == maxCol - 1 then Some(Vec(0, -speed))
      else None
    else None
  }

  /**
   * initCubeProperties applied to one cube: `step` becomes 0 and an edge
   * cube receives its vector; any other cube keeps the vector it had.
   */
  function InitCube(cube: Cube, maxRow: int, maxCol: int, speed: int): (c: Cube)
    ensures c.step == 0
    ensures c.(step := cube.step, vector := cube.vector) == cube
    ensures IsEdgeCell(maxRow, maxCol, cube.id.row, cube.id.col) ==>
      c.vector == EdgeVector(maxRow, maxCol, speed, cube.id.row, cube.id.col)
    ensures !IsEdgeCell(maxRow, maxCol, cube.id.row, cube.id.col) ==> c.vector == cube.vector
  {
    var v := EdgeVector(maxRow, maxCol, speed, cube.id.row, cube.id.col);
    cube.(step := 0, vector := if v.Some? then v else cube.vector)
  }

  /**
   * The edge-cube identities initCubeProperties appends while it visits
   * rows 0..n-1 of column `col` of generation `gen`.
   */
  function ColumnEdges(gen: nat, maxRow: int, maxCol: int, col: int, n: nat): seq<CubeId>
    decreases n
  {
    if n == 0 then []
    else
      ColumnEdges(gen, maxRow, maxCol, col, n - 1)
      + (if IsEdgeCell(maxRow, maxCol, n - 1, col) then [CubeId(gen, n - 1, col)] else [])
  }

  /** The same for columns 0..k-1 of a grid with `rows` rows, in scan order. */
  function ScanEdges(gen: nat, maxRow: int, maxCol: int, k: nat, rows: nat): seq<CubeId>
    decreases k
  {
    if k == 0 then [] else ScanEdges(gen, maxRow, maxCol, k - 1, rows) + ColumnEdges(gen, maxRow, maxCol, k - 1, rows)
  }

  lemma {:induction false} ScanEdgesMembers(gen: nat, maxRow: int, maxCol: int, k: nat, rows: nat)
    ensures forall id :: id in ScanEdges(gen, maxRow, maxCol, k, rows) <==>
      id.gen == gen && 0 <= id.col < k && 0 <= id.row < rows && IsEdgeCell(maxRow, maxCol, id.row, id.col)
  {
    if k > 0 {
      ScanEdgesMembers(gen, maxRow, maxCol, k - 1, rows);
      ColumnEdgesMembers(gen, maxRow, maxCol, k - 1, rows);
    }
  }

  lemma {:induction false} ColumnEdgesMembers(gen: nat, maxRow: int, maxCol: int, col: int, n: nat)
    ensures forall id :: id in ColumnEdges(gen, maxRow, maxCol, col, n) <==>
      id.gen == gen && id.col == col && 0 <= id.row < n && IsEdgeCell(maxRow, maxCol, id.row, id.col)
  {
    if n > 0 {
      ColumnEdgesMembers(gen, maxRow, maxCol, col, n - 1);
    }
  }

  lemma {:induction false} SideColumnEdgeCount(gen: nat, maxRow: int, maxCol: int, col: int, n: nat)
    requires maxRow >= 2 && maxCol >= 2 && (col == 0 || col == maxCol - 1) && n <= maxRow
    ensures |ColumnEdges(gen, maxRow, maxCol, col, n)| == if n <= 1 then 0 else if n < maxRow then n - 1 else maxRow - 2
  {
    if n > 0 {
      SideColumnEdgeCount(gen, maxRow, maxCol, col, n - 1);
    }
  }

  lemma {:induction false} InnerColumnEdgeCount(gen: nat, maxRow: int, maxCol: int, col: int, n: nat)
    requires maxRow >= 2 && 0 < col < maxCol - 1 && n <= maxRow
    ensures |ColumnEdges(gen, maxRow, maxCol, col, n)| == (if n >= 1 then 1 else 0) + (if n == maxRow then 1 else 0)
  {
    if n > 0 {
      InnerColumnEdgeCount(gen, maxRow, maxCol, col, n - 1);
    }
  }

  lemma {:induction false} ScanEdgesCountUpTo(gen: nat, maxRow: int, maxCol: int, k: nat)
    requires maxRow >= 2 && maxCol >= 2 && 1 <= k <= maxCol - 1
    ensures |ScanEdges(gen, maxRow, maxCol, k, maxRow)| == maxRow - 2 + 2 * (k - 1)
  {
    if k == 1 {
      SideColumnEdgeCount(gen, maxRow, maxCol, 0, maxRow);
    } else {
      ScanEdgesCountUpTo(gen, maxRow, maxCol, k - 1);
      InnerColumnEdgeCount(gen, maxRow, maxCol, k - 1, maxRow);
    }
  }

  /**
   * A full build of a maxRow x maxCol grid (maxRow, maxCol >= 2) appends
   * 2 * (maxRow + maxCol) - 8 edge cubes: the boundary minus four corners.
   */
  lemma EdgeCubeCount(gen: nat, maxRow: int, maxCol: int)
    requires maxRow >= 2 && maxCol >= 2
    ensures |ScanEdges(gen, maxRow, maxCol, maxCol, maxRow)| == 2 * (maxRow + maxCol) - 8
  {
    ScanEdgesCountUpTo(gen, maxRow, maxCol, maxCol - 1);
    SideColumnEdgeCount(gen, maxRow, maxCol, maxCol - 1, maxRow);
  }

  // ---------------------------------------------------------------------
  // _propagateActive: move every snapshot cube along its vector
  // ---------------------------------------------------------------------

  /** The cell an active cube moves to: its position plus its vector. */
  function Target(b: Board, p: Pos): Pos
    requires Rect(b) && InGrid(b, p) && At(b, p).vector.Some?
  {
    var v := At(b, p).vector.value;
    Pos(p.row + v.dRow, p.col + v.dCol)
  }

  /**
   * One iteration of the loop of _propagateActive for the snapshot cube
   * at `p`, reading its current fields. An in-bounds target gets
   * `step = source step + speed`; with rebound it is activated and, unless
   * it is an edge cube, takes the source's vector; without rebound only a
   * non-edge target is activated (and takes the vector), while an edge
   * target still has its step written. The source is then deactivated,
   * its step reset, and its vector dropped unless it is an edge cube.
   */
  function Advance(b: Board, p: Pos, edge: seq<CubeId>, rebound: bool, speed: int): (r: Board)
    requires Rect(b) && InGrid(b, p) && At(b, p).vector.Some?
    ensures Rect(r) && SameShape(r, b) && Rows(r) == Rows(b)
    ensures !At(r, p).active && At(r, p).step == 0
    ensures forall q :: InGrid(b, q) && q != p && q != Target(b, p) ==> At(r, q) == At(b, q)
    ensures forall q :: InGrid(b, q) ==> At(r, q).id == At(b, q).id && At(r, q).raiseHeight == At(b, q).raiseHeight
    ensures forall q :: InGrid(b, q) && q != p && At(b, q).active ==> At(r, q).active
    ensures forall q :: InGrid(b, q) && q != p && At(b, q).vector.Some? ==> At(r, q).vector.Some?
    ensures forall q :: InGrid(b, q) && At(b, q).id in edge ==> At(r, q).vector == At(b, q).vector
  {
    var src := At(b, p);
    var next := Target(b, p);
    var moved :=
      if !InGrid(b, next) then b
      else
        var t := At(b, next);
        var stepped := t.(step := src.step + speed);
        if rebound then
          Put(b, next, stepped.(active := true, vector := if t.id in edge then t.vector else src.vector))
        else if t.id in edge then
          Put(b, next, stepped)
        else
          Put(b, next, stepped.(active := true, vector := src.vector));
    var s := At(moved, p);
    Put(moved, p, s.(active := false, step := 0, vector := if s.id in edge then s.vector else None))
  }

  /** Every snapshot position is a distinct in-grid cube that carries a vector. */
  predicate Carrying(b: Board, ps: seq<Pos>)
    requires Rect(b)
  {
    Distinct(ps) && forall q :: q in ps ==> InGrid(b, q) && At(b, q).vector.Some?
  }

  /**
   * The loop of _propagateActive over the snapshot `ps`, in order. Cube
   * identities and heights never change, nor do the vectors of edge cubes.
   */
  function AdvanceAll(b: Board, ps: seq<Pos>, edge: seq<CubeId>, rebound: bool, speed: int): (r: Board)
    requires Rect(b) && Carrying(b, ps)
    ensures Rect(r) && SameShape(r, b) && Rows(r) == Rows(b)
    ensures forall q :: InGrid(b, q) ==> At(r, q).id == At(b, q).id && At(r, q).raiseHeight == At(b, q).raiseHeight
    ensures forall q :: InGrid(b, q) && At(b, q).id in edge ==> At(r, q).vector == At(b, q).vector
    decreases |ps|
  {
    if ps == [] then b
    else
      var b1 := Advance(b, ps[0], edge, rebound, speed);
      CarryingTail(b, ps, edge, rebound, speed);
      AdvanceAll(b1, ps[1..], edge, rebound, speed)
  }

  /** The in-bounds targets the loop computes, each from the cube's vector at its turn. */
  ghost function Targets(b: Board, ps: seq<Pos>, edge: seq<CubeId>, rebound: bool, speed: int): (t: set<Pos>)
    requires Rect(b) && Carrying(b, ps)
    ensures |t| <= |ps|
    ensures forall q :: q in t ==> InGrid(b, q)
    decreases |ps|
  {
    if ps == [] then {}
    else
      var b1 := Advance(b, ps[0], edge, rebound, speed);
      CarryingTail(b, ps, edge, rebound, speed);
      var rest := Targets(b1, ps[1..], edge, rebound, speed);
      var here := Hit(b, ps[0]);
      UnionSize(here, rest);
      here + rest
  }

  /** The target of the cube at p, when it lies on the grid. */
  ghost function Hit(b: Board, p: Pos): (h: set<Pos>)
    requires Rect(b) && InGrid(b, p) && At(b, p).vector.Some?
    ensures |h| <= 1 && forall q :: q in h ==> InGrid(b, q) && q == Target(b, p)
  {
    if InGrid(b, Target(b, p)) then {Target(b, p)} else {}
  }

  lemma UnionSize<T>(a: set<T>, b: set<T>)
    ensures |a + b| <= |a| + |b|
  {
  }

  lemma CarryingTail(b: Board, ps: seq<Pos>, edge: seq<CubeId>, rebound: bool, speed: int)
    requires Rect(b) && Carrying(b, ps) && ps != []
    ensures Carrying(Advance(b, ps[0], edge, rebound, speed), ps[1..])
    ensures forall q :: q in ps[1..] ==> q != ps[0] && q in ps
  {
    forall q | q in ps[1..] ensures q != ps[0] && q in ps {
      var j :| 0 <= j < |ps[1..]| && ps[1..][j] == q;
      assert ps[j + 1] == q;
    }
  }

  /**
   * Every cube active after the loop was either active before and not in
   * the snapshot, or is the in-bounds target of a snapshot cube.
   */
  lemma {:induction false} AdvanceAllActivates(b: Board, ps: seq<Pos>, edge: seq<CubeId>, rebound: bool, speed: int)
    requires Rect(b) && Carrying(b, ps)
    ensures forall q :: InGrid(b, q) && At(AdvanceAll(b, ps, edge, rebound, speed), q).active ==>
      (At(b, q).active && q !in ps) || q in Targets(b, ps, edge, rebound, speed)
    decreases |ps|
  {
    if ps != [] {
      var b1 := Advance(b, ps[0], edge, rebound, speed);
      CarryingTail(b, ps, edge, rebound, speed);
      AdvanceAllActivates(b1, ps[1..], edge, rebound, speed);
      assert AdvanceAll(b, ps, edge, rebound, speed) == AdvanceAll(b1, ps[1..], edge, rebound, speed);
      assert Targets(b, ps, edge, rebound, speed) >= Targets(b1, ps[1..], edge, rebound, speed);
    }
  }

  /** Every active cube carries a vector (otherwise _propagateActive would fail on it). */
  ghost predicate ActiveCarry(b: Board)
    requires Rect(b)
  {
    forall q :: InGrid(b, q) && At(b, q).active ==> At(b, q).vector.Some?
  }

  /** getAllActive of a board whose active cubes carry vectors is a valid snapshot. */
  lemma SnapshotCarrying(b: Board)
    requires Rect(b) && ActiveCarry(b)
    ensures Carrying(b, ActivePositions(b))
  {
    ActivePositionsExact(b);
    OrderedDistinct(ActivePositions(b));
  }

  /** _propagateActive never increases the number of active cubes. */
  lemma PropagationNeverAddsActive(b: Board, edge: seq<CubeId>, rebound: bool, speed: int)
    requires Rect(b) && ActiveCarry(b)
    ensures Carrying(b, ActivePositions(b))
    ensures ActiveCount(AdvanceAll(b, ActivePositions(b), edge, rebound, speed)) <= ActiveCount(b)
  {
    SnapshotCarrying(b);
    var ps := ActivePositions(b);
    var r := AdvanceAll(b, ps, edge, rebound, speed);
    AdvanceAllActivates(b, ps, edge, rebound, speed);
    ActivePositionsExact(b);
    ActiveCountBound(r, Targets(b, ps, edge, rebound, speed), |ps|);
  }

  /** Without rebound, an edge cube active after the loop was active before and outside the snapshot. */
  lemma {:induction false} NoReboundEdgeStaysDark(b: Board, ps: seq<Pos>, edge: seq<CubeId>, speed: int)
    requires Rect(b) && Carrying(b, ps)
    ensures forall q :: InGrid(b, q) && At(b, q).id in edge && At(AdvanceAll(b, ps, edge, false, speed), q).active ==>
      At(b, q).active && q !in ps
    decreases |ps|
  {
    if ps != [] {
      var b1 := Advance(b, ps[0], edge, false, speed);
      CarryingTail(b, ps, edge, false, speed);
      NoReboundEdgeStaysDark(b1, ps[1..], edge, speed);
      assert AdvanceAll(b, ps, edge, false, speed) == AdvanceAll(b1, ps[1..], edge, false, speed);
    }
  }

  /** Without rebound, no member of edgeCubes is active after _propagateActive's loop. */
  lemma NoReboundClearsEdges(b: Board, edge: seq<CubeId>, speed: int)
    requires Rect(b) && ActiveCarry(b)
    ensures Carrying(b, ActivePositions(b))
    ensures forall q :: InGrid(b, q) && At(b, q).id in edge ==>
      !At(AdvanceAll(b, ActivePositions(b), edge, false, speed), q).active
  {
    SnapshotCarrying(b);
    ActivePositionsExact(b);
    NoReboundEdgeStaysDark(b, ActivePositions(b), edge, speed);
  }

  ghost predicate NonNegativeSteps(b: Board)
    requires Rect(b)
  {
    forall q :: InGrid(b, q) ==> At(b, q).step >= 0
  }

  /**
   * One iteration keeps steps non-negative; a cube active afterwards was
   * active and untouched, or received a step of at least `speed`.
   */
  lemma AdvanceSteps(b: Board, p: Pos, edge: seq<CubeId>, rebound: bool, speed: int)
    requires Rect(b) && InGrid(b, p) && At(b, p).vector.Some? && NonNegativeSteps(b) && speed >= 0
    ensures NonNegativeSteps(Advance(b, p, edge, rebound, speed))
    ensures forall q :: InGrid(b, q) && At(Advance(b, p, edge, rebound, speed), q).active ==>
      (q != p && At(b, q).active && At(Advance(b, p, edge, rebound, speed), q).step == At(b, q).step)
      || At(Advance(b, p, edge, rebound, speed), q).step >= speed
  {
  }

  /**
   * With a non-negative speed, steps stay non-negative, and a cube active
   * after the loop was untouched by it or received a step of at least `speed`.
   */
  lemma {:induction false} AdvanceAllSteps(b: Board, ps: seq<Pos>, edge: seq<CubeId>, rebound: bool, speed: int)
    requires Rect(b) && Carrying(b, ps) && NonNegativeSteps(b) && speed >= 0
    ensures NonNegativeSteps(AdvanceAll(b, ps, edge, rebound, speed))
    ensures forall q :: InGrid(b, q) && At(AdvanceAll(b, ps, edge, rebound, speed), q).active ==>
      (At(b, q).active && q !in ps && At(AdvanceAll(b, ps, edge, rebound, speed), q).step == At(b, q).step)
      || At(AdvanceAll(b, ps, edge, rebound, speed), q).step >= speed
    decreases |ps|
  {
    if ps != [] {
      var b1 := Advance(b, ps[0], edge, rebound, speed);
      CarryingTail(b, ps, edge, rebound, speed);
      AdvanceSteps(b, ps[0], edge, rebound, speed);
      AdvanceAllSteps(b1, ps[1..], edge, rebound, speed);
      assert AdvanceAll(b, ps, edge, rebound, speed) == AdvanceAll(b1, ps[1..], edge, rebound, speed);
    }
  }

  /**
   * After the loop over the whole snapshot, with a positive speed, every
   * active cube has a step of at least `speed`.
   */
  lemma ActiveStepsPositive(b: Board, edge: seq<CubeId>, rebound: bool, speed: int)
    requires Rect(b) && ActiveCarry(b) && NonNegativeSteps(b) && speed > 0
    ensures Carrying(b, ActivePositions(b))
    ensures NonNegativeSteps(AdvanceAll(b, ActivePositions(b), edge, rebound, speed))
    ensures forall q :: InGrid(b, q) && At(AdvanceAll(b, ActivePositions(b), edge, rebound, speed), q).active ==>
      At(AdvanceAll(b, ActivePositions(b), edge, rebound, speed), q).step >= speed
  {
    SnapshotCarrying(b);
    ActivePositionsExact(b);
    AdvanceAllSteps(b, ActivePositions(b), edge, rebound, speed);
  }

  /** Every cube of a member of `edge` carries a vector. */
  ghost predicate EdgeArmed(b: Board, edge: seq<CubeId>)
    requires Rect(b)
  {
    forall q :: InGrid(b, q) && At(b, q).id in edge ==> At(b, q).vector.Some?
  }

  /** The loop keeps every active cube carrying a vector. */
  lemma {:induction false} AdvanceAllCarry(b: Board, ps: seq<Pos>, edge: seq<CubeId>, rebound: bool, speed: int)
    requires Rect(b) && Carrying(b, ps) && ActiveCarry(b) && EdgeArmed(b, edge)
    ensures ActiveCarry(AdvanceAll(b, ps, edge, rebound, speed))
    ensures EdgeArmed(AdvanceAll(b, ps, edge, rebound, speed), edge)
    decreases |ps|
  {
    if ps != [] {
      var b1 := Advance(b, ps[0], edge, rebound, speed);
      CarryingTail(b, ps, edge, rebound, speed);
      AdvanceAllCarry(b1, ps[1..], edge, rebound, speed);
      assert AdvanceAll(b, ps, edge, rebound, speed) == AdvanceAll(b1, ps[1..], edge, rebound, speed);
    }
  }

  // ---------------------------------------------------------------------
  // _raiseAdjacentCubes: sum the in-reach sources, else decay
  // ---------------------------------------------------------------------

  /** maximumRange for a source: its step, capped at maxRaiseRadius. */
  function Reach(step: int, radius: real): (m: real)
    ensures m <= radius && m <= step as real
    ensures m == radius || m == step as real
  {
    if (step as real) < radius then step as real else radius
  }

  /** No source has a zero maximumRange, so the division in the raise pass is defined. */
  predicate ReachDefined(srcs: seq<Cube>, radius: real)
  {
    forall i :: 0 <= i < |srcs| ==> Reach(srcs[i].step, radius) != 0.0
  }

  /** `range <= maximumRange` for the cube at `p` and source `a`, stated without square roots. */
  predicate InReach(p: Pos, a: Cube, radius: real)
  {
    var m := Reach(a.step, radius);
    0.0 <= m && DistSq(p, PosOf(a)) as real <= m * m
  }

  /**
   * The inner loop of _raiseAdjacentCubes for the cube at `p`: for each
   * source in reach, count it and add (maximumRange - range) * height / maximumRange.
   */
  function Influence(sqrt: nat -> real, p: Pos, srcs: seq<Cube>, radius: real, height: real): Tally
    requires IsSqrt(sqrt) && ReachDefined(srcs, radius)
    decreases |srcs|
  {
    if srcs == [] then Tally(0, 0.0)
    else
      var t := Influence(sqrt, p, srcs[..|srcs| - 1], radius, height);
      var a := srcs[|srcs| - 1];
      var m := Reach(a.step, radius);
      var range := CubeDistance(sqrt, p, PosOf(a));
      if range <= m then Tally(t.count + 1, t.sum + Share(m, range, height)) else t
  }

  /** One source's contribution: (maximumRange - range) * maxRaiseHeight / maximumRange. */
  function Share(m: real, range: real, height: real): real
    requires m != 0.0
  {
    (m - range) * height / m
  }

  /** The range test of the loop is exactly InReach. */
  lemma InReachExact(sqrt: nat -> real, p: Pos, a: Cube, radius: real)
    requires IsSqrt(sqrt)
    ensures CubeDistance(sqrt, p, PosOf(a)) <= Reach(a.step, radius) <==> InReach(p, a, radius)
  {
    WithinIffSquared(sqrt, DistSq(p, PosOf(a)), Reach(a.step, radius));
  }

  /**
   * A cube is counted exactly when some source has it in reach, and never
   * more often than there are sources.
   */
  lemma {:induction false} InfluenceCount(sqrt: nat -> real, p: Pos, srcs: seq<Cube>, radius: real, height: real)
    requires IsSqrt(sqrt) && ReachDefined(srcs, radius)
    ensures Influence(sqrt, p, srcs, radius, height).count <= |srcs|
    ensures Influence(sqrt, p, srcs, radius, height).count > 0 <==>
      exists i :: 0 <= i < |srcs| && InReach(p, srcs[i], radius)
    decreases |srcs|
  {
    if srcs != [] {
      var init := srcs[..|srcs| - 1];
      var a := srcs[|srcs| - 1];
      InfluenceCount(sqrt, p, init, radius, height);
      InReachExact(sqrt, p, a, radius);
      if exists i :: 0 <= i < |init| && InReach(p, init[i], radius) {
        var i :| 0 <= i < |init| && InReach(p, init[i], radius);
        assert srcs[i] == init[i];
      }
      if exists i :: 0 <= i < |srcs| && InReach(p, srcs[i], radius) {
        var i :| 0 <= i < |srcs| && InReach(p, srcs[i], radius);
        if i < |init| {
          assert init[i] == srcs[i];
        }
      }
    }
  }

  /** One source in reach contributes between 0 and `height`, and exactly `height` at range 0. */
  lemma ShareBounds(m: real, range: real, height: real)
    requires 0.0 <= range <= m && m != 0.0 && 0.0 <= height
    ensures 0.0 <= Share(m, range, height) <= height
    ensures range == 0.0 ==> Share(m, range, height) == height
  {
    var q := range * height / m;
    assert Share(m, range, height) == height - q;
    assert 0.0 <= range * height;
    assert range * height <= m * height by {
      assert (m - range) * height >= 0.0;
    }
  }

  lemma TallyStep(t: Tally, share: real, height: real)
    requires 0.0 <= t.sum <= t.count as real * height && 0.0 <= share <= height
    ensures 0.0 <= t.sum + share <= (t.count + 1) as real * height
  {
    ScaleStep(t.count, height);
  }

  /** With a non-negative height, every counted source adds between 0 and `height`. */
  lemma {:induction false} InfluenceBounds(sqrt: nat -> real, p: Pos, srcs: seq<Cube>, radius: real, height: real)
    requires IsSqrt(sqrt) && ReachDefined(srcs, radius) && 0.0 <= height
    ensures 0.0 <= Influence(sqrt, p, srcs, radius, height).sum
    ensures Influence(sqrt, p, srcs, radius, height).sum <= Influence(sqrt, p, srcs, radius, height).count as real * height
    decreases |srcs|
  {
    if srcs != [] {
      var init := srcs[..|srcs| - 1];
      var a := srcs[|srcs| - 1];
      InfluenceBounds(sqrt, p, init, radius, height);
      var t := Influence(sqrt, p, init, radius, height);
      var m := Reach(a.step, radius);
      var range := CubeDistance(sqrt, p, PosOf(a));
      if range <= m {
        ShareBounds(m, range, height);
        TallyStep(t, Share(m, range, height), height);
      } else {
        assert Influence(sqrt, p, srcs, radius, height) == t;
      }
    }
  }

  /**
   * The cube under an in-reach source is raised by at least `height`: that
   * source is at range 0 and contributes exactly `height`.
   */
  lemma {:induction false} InfluenceAtSource(sqrt: nat -> real, p: Pos, srcs: seq<Cube>, radius: real, height: real, i: int)
    requires IsSqrt(sqrt) && ReachDefined(srcs, radius) && 0.0 <= height
    requires 0 <= i < |srcs| && PosOf(srcs[i]) == p && 0.0 < Reach(srcs[i].step, radius)
    ensures Influence(sqrt, p, srcs, radius, height).count > 0
    ensures Influence(sqrt, p, srcs, radius, height).sum >= height
    decreases |srcs|
  {
    var init := srcs[..|srcs| - 1];
    var a := srcs[|srcs| - 1];
    var m := Reach(a.step, radius);
    var range := CubeDistance(sqrt, p, PosOf(a));
    InfluenceBounds(sqrt, p, init, radius, height);
    if i == |srcs| - 1 {
      CubeDistanceMetric(sqrt, p, PosOf(a));
      ShareBounds(m, range, height);
    } else {
      assert init[i] == srcs[i];
      InfluenceAtSource(sqrt, p, init, radius, height, i);
      if range <= m {
        ShareBounds(m, range, height);
      }
    }
  }

  /**
   * One cube after the raise pass: only its height changes; with no source
   * in reach it decays by 0.85, otherwise it is the non-negative sum of at
   * most |srcs| contributions of at most `height` each.
   */
  function RaiseCube(sqrt: nat -> real, c: Cube, srcs: seq<Cube>, radius: real, height: real): (r: Cube)
    requires IsSqrt(sqrt) && ReachDefined(srcs, radius)
    ensures r == c.(raiseHeight := r.raiseHeight)
    ensures (forall i :: 0 <= i < |srcs| ==> !InReach(PosOf(c), srcs[i], radius)) ==>
      r.raiseHeight == c.raiseHeight * Decay
    ensures 0.0 <= height && (exists i :: 0 <= i < |srcs| && InReach(PosOf(c), srcs[i], radius)) ==>
      0.0 <= r.raiseHeight <= |srcs| as real * height
  {
    var t := Influence(sqrt, PosOf(c), srcs, radius, height);
    InfluenceCount(sqrt, PosOf(c), srcs, radius, height);
    InfluenceWithin(sqrt, PosOf(c), srcs, radius, height);
    c.(raiseHeight := Settle(c.raiseHeight, t))
  }

  lemma InfluenceWithin(sqrt: nat -> real, p: Pos, srcs: seq<Cube>, radius: real, height: real)
    requires IsSqrt(sqrt) && ReachDefined(srcs, radius)
    ensures 0.0 <= height ==> 0.0 <= Influence(sqrt, p, srcs, radius, height).sum <= |srcs| as real * height
  {
    if 0.0 <= height {
      var t := Influence(sqrt, p, srcs, radius, height);
      InfluenceCount(sqrt, p, srcs, radius, height);
      InfluenceBounds(sqrt, p, srcs, radius, height);
      SharesWithin(t.sum, t.count, |srcs|, height);
    }
  }

  /** The board after the raise pass over the sources `srcs`. */
  function RaiseAll(sqrt: nat -> real, b: Board, srcs: seq<Cube>, radius: real, height: real): (r: Board)
    requires IsSqrt(sqrt) && Rect(b) && ReachDefined(srcs, radius)
    ensures Rect(r) && SameShape(r, b) && Rows(r) == Rows(b)
    ensures forall q :: InGrid(b, q) ==> At(r, q) == RaiseCube(sqrt, At(b, q), srcs, radius, height)
  {
    seq(|b|, c requires 0 <= c < |b| =>
      seq(|b[c]|, n requires 0 <= n < |b[c]| => RaiseCube(sqrt, b[c][n], srcs, radius, height)))
  }

  /** The raise pass changes heights only: activity, steps and vectors stay. */
  lemma RaiseAllKeeps(sqrt: nat -> real, b: Board, srcs: seq<Cube>, radius: real, height: real)
    requires IsSqrt(sqrt) && Rect(b) && ReachDefined(srcs, radius)
    ensures forall q :: InGrid(b, q) ==>
      At(RaiseAll(sqrt, b, srcs, radius, height), q) == At(b, q).(raiseHeight := At(RaiseAll(sqrt, b, srcs, radius, height), q).raiseHeight)
    ensures ActivePositions(RaiseAll(sqrt, b, srcs, radius, height)) == ActivePositions(b)
  {
    SameActivity(RaiseAll(sqrt, b, srcs, radius, height), b);
  }

  // ---------------------------------------------------------------------
  // mainBehaviour: move, raise, then maybe spawn one edge cube
  // ---------------------------------------------------------------------

  /** The properties RandomPropagation adds to the grid. */
  datatype Profile = Profile(
    rebound: bool,
    speed: int,
    maxRaiseHeight: real,
    maxRaiseRadius: real,
    limit: int,
    chance: real)

  /**
   * What a propagation frame needs of the cubes and keeps: every active
   * cube and every member of edgeCubes carries a vector, and no step is negative.
   */
  ghost predicate Ready(b: Board, edge: seq<CubeId>)
    requires Rect(b)
  {
    ActiveCarry(b) && NonNegativeSteps(b) && EdgeArmed(b, edge)
  }

  /** Changing only heights keeps a board Ready. */
  lemma ReadyUnderHeights(b: Board, r: Board, edge: seq<CubeId>)
    requires Rect(b) && Rect(r) && SameShape(r, b) && Rows(r) == Rows(b) && Ready(b, edge)
    requires forall q :: InGrid(b, q) ==> At(r, q) == At(b, q).(raiseHeight := At(r, q).raiseHeight)
    ensures Ready(r, edge)
  {
  }

  /** With every active step positive and a positive radius, no maximumRange is zero. */
  lemma SnapshotReach(b: Board, speed: int, radius: real)
    requires Rect(b) && speed > 0 && radius > 0.0
    requires forall q :: InGrid(b, q) && At(b, q).active ==> At(b, q).step >= speed
    ensures ReachDefined(ActiveCubes(b), radius)
    ensures forall i :: 0 <= i < |ActiveCubes(b)| ==> Reach(ActiveCubes(b)[i].step, radius) > 0.0
  {
    ActivePositionsExact(b);
  }

  /** The loop of _propagateActive over the getAllActive snapshot. */
  function MoveAll(b: Board, edge: seq<CubeId>, s: Profile): (r: Board)
    requires Rect(b) && Ready(b, edge) && s.speed > 0
    ensures Rect(r) && SameShape(r, b) && Rows(r) == Rows(b)
    ensures Ready(r, edge)
    ensures forall q :: InGrid(b, q) ==> At(r, q).id == At(b, q).id
    ensures forall q :: InGrid(r, q) && At(r, q).active ==> At(r, q).step >= s.speed
    ensures ActiveCount(r) <= ActiveCount(b)
    ensures !s.rebound ==> forall q :: InGrid(b, q) && At(b, q).id in edge ==> !At(r, q).active
  {
    ActiveStepsPositive(b, edge, s.rebound, s.speed);
    PropagationNeverAddsActive(b, edge, s.rebound, s.speed);
    AdvanceAllCarry(b, ActivePositions(b), edge, s.rebound, s.speed);
    NoReboundClearsEdges(b, edge, s.speed);
    AdvanceAll(b, ActivePositions(b), edge, s.rebound, s.speed)
  }

  /**
   * _propagateActive: every snapshot cube moves along its vector, then the
   * raise pass runs over the cubes active afterwards.
   */
  function PropagateActive(sqrt: nat -> real, b: Board, edge: seq<CubeId>, s: Profile): (r: Board)
    requires IsSqrt(sqrt) && Rect(b) && Ready(b, edge) && s.speed > 0 && s.maxRaiseRadius > 0.0
    ensures Rect(r) && SameShape(r, b) && Rows(r) == Rows(b)
    ensures Ready(r, edge)
    ensures forall q :: InGrid(b, q) ==> At(r, q).id == At(b, q).id
    ensures ActiveCount(r) <= ActiveCount(b)
    ensures !s.rebound ==> forall q :: InGrid(b, q) && At(b, q).id in edge ==> !At(r, q).active
  {
    RaiseMoved(sqrt, MoveAll(b, edge, s), edge, s)
  }

  /** The raise pass over the cubes left active by the move loop. */
  function RaiseMoved(sqrt: nat -> real, moved: Board, edge: seq<CubeId>, s: Profile): (r: Board)
    requires IsSqrt(sqrt) && Rect(moved) && Ready(moved, edge) && s.speed > 0 && s.maxRaiseRadius > 0.0
    requires forall q :: InGrid(moved, q) && At(moved, q).active ==> At(moved, q).step >= s.speed
    ensures Rect(r) && SameShape(r, moved) && Rows(r) == Rows(moved)
    ensures Ready(r, edge)
    ensures forall q :: InGrid(moved, q) ==> At(r, q) == At(moved, q).(raiseHeight := At(r, q).raiseHeight)
    ensures ActivePositions(r) == ActivePositions(moved)
  {
    SnapshotReach(moved, s.speed, s.maxRaiseRadius);
    RaiseAllKeeps(sqrt, moved, ActiveCubes(moved), s.maxRaiseRadius, s.maxRaiseHeight);
    ReadyUnderHeights(moved, RaiseAll(sqrt, moved, ActiveCubes(moved), s.maxRaiseRadius, s.maxRaiseHeight), edge);
    RaiseAll(sqrt, moved, ActiveCubes(moved), s.maxRaiseRadius, s.maxRaiseHeight)
  }

  /** Math.floor(draw * n) for a draw in [0, 1): an index into a sequence of length n. */
  function PickIndex(draw: real, n: nat): (i: nat)
    requires 0.0 <= draw < 1.0 && n > 0
    ensures i < n
    ensures i as real <= draw * n as real < i as real + 1.0
  {
    assert 0.0 <= draw * n as real < n as real;
    (draw * n as real).Floor
  }

  /**
   * setRandomActive on the chosen edgeCubes entry: its cube becomes active
   * with step 0. An entry from an earlier build names a cube object that is
   * no longer in the array, so the board does not change.
   */
  function SpawnAt(b: Board, id: CubeId): (r: Board)
    requires Rect(b)
    ensures Rect(r) && SameShape(r, b) && Rows(r) == Rows(b)
    ensures forall q :: InGrid(b, q) && At(b, q).id != id ==> At(r, q) == At(b, q)
    ensures forall q :: InGrid(b, q) && At(b, q).id == id && q == Pos(id.row, id.col) ==>
      At(r, q) == At(b, q).(active := true, step := 0)
  {
    var p := Pos(id.row, id.col);
    if InGrid(b, p) && At(b, p).id == id then Put(b, p, At(b, p).(active := true, step := 0)) else b
  }

  /**
   * RandomPropagation.mainBehaviour with the two draws of Math.random as
   * inputs. Without rebound, and with fewer than `limit` active cubes, a
   * spawn draw above 1 - chance picks an edgeCubes entry; when edgeCubes is
   * empty that entry is undefined and the frame throws (None).
   */
  function MainBehaviour(sqrt: nat -> real, b: Board, edge: seq<CubeId>, s: Profile, spawnDraw: real, pickDraw: real): (r: Option<Board>)
    requires IsSqrt(sqrt) && Rect(b) && Ready(b, edge) && s.speed > 0 && s.maxRaiseRadius > 0.0
    requires 0.0 <= pickDraw < 1.0
    ensures r.None? <==> !s.rebound && ActiveCount(PropagateActive(sqrt, b, edge, s)) < s.limit
                         && spawnDraw > 1.0 - s.chance && |edge| == 0
  {
    var moved := PropagateActive(sqrt, b, edge, s);
    if !s.rebound && ActiveCount(moved) < s.limit && spawnDraw > 1.0 - s.chance then
      if |edge| == 0 then None
      else Some(SpawnAt(moved, edge[PickIndex(pickDraw, |edge|)]))
    else Some(moved)
  }

  /** A spawn keeps a board ready: the cube it activates is an edge cube and carries a vector. */
  lemma SpawnReady(b: Board, edge: seq<CubeId>, id: CubeId)
    requires Rect(b) && Ready(b, edge) && id in edge
    ensures Ready(SpawnAt(b, id), edge)
    ensures ActiveCount(SpawnAt(b, id)) <= ActiveCount(b) + 1
  {
    var p := Pos(id.row, id.col);
    if InGrid(b, p) && At(b, p).id == id {
      PutActiveCount(b, p, At(b, p).(active := true, step := 0));
    }
  }

  /** Every frame that does not throw keeps the cubes ready for the next one. */
  lemma MainBehaviourReady(sqrt: nat -> real, b: Board, edge: seq<CubeId>, s: Profile, spawnDraw: real, pickDraw: real)
    requires IsSqrt(sqrt) && Rect(b) && Ready(b, edge) && s.speed > 0 && s.maxRaiseRadius > 0.0
    requires 0.0 <= pickDraw < 1.0
    requires MainBehaviour(sqrt, b, edge, s, spawnDraw, pickDraw).Some?
    ensures Rect(MainBehaviour(sqrt, b, edge, s, spawnDraw, pickDraw).value)
    ensures Ready(MainBehaviour(sqrt, b, edge, s, spawnDraw, pickDraw).value, edge)
  {
    var moved := PropagateActive(sqrt, b, edge, s);
    if !s.rebound && ActiveCount(moved) < s.limit && spawnDraw > 1.0 - s.chance {
      SpawnReady(moved, edge, edge[PickIndex(pickDraw, |edge|)]);
    }
  }

  /**
   * Without rebound, "at most `limit` active cubes" is preserved: a spawn
   * happens only below the limit and adds one cube.
   */
  lemma MainBehaviourLimit(sqrt: nat -> real, b: Board, edge: seq<CubeId>, s: Profile, spawnDraw: real, pickDraw: real)
    requires IsSqrt(sqrt) && Rect(b) && Ready(b, edge) && s.speed > 0 && s.maxRaiseRadius > 0.0
    requires 0.0 <= pickDraw < 1.0
    requires !s.rebound && ActiveCount(b) <= s.limit
    requires MainBehaviour(sqrt, b, edge, s, spawnDraw, pickDraw).Some?
    ensures Rect(MainBehaviour(sqrt, b, edge, s, spawnDraw, pickDraw).value)
    ensures ActiveCount(MainBehaviour(sqrt, b, edge, s, spawnDraw, pickDraw).value) <= s.limit
  {
    var moved := PropagateActive(sqrt, b, edge, s);
    if ActiveCount(moved) < s.limit && spawnDraw > 1.0 - s.chance {
      SpawnReady(moved, edge, edge[PickIndex(pickDraw, |edge|)]);
    }
  }

  /**
   * When a spawn picks an entry of the current build, that cube is active
   * with step 0 after the frame, and no other cube differs from the
   * propagated board.
   */
  lemma MainBehaviourSpawns(sqrt: nat -> real, b: Board, edge: seq<CubeId>, s: Profile, spawnDraw: real, pickDraw: real)
    requires IsSqrt(sqrt) && Rect(b) && Ready(b, edge) && s.speed > 0 && s.maxRaiseRadius > 0.0
    requires 0.0 <= pickDraw < 1.0 && |edge| > 0
    requires !s.rebound && ActiveCount(PropagateActive(sqrt, b, edge, s)) < s.limit && spawnDraw > 1.0 - s.chance
    ensures MainBehaviour(sqrt, b, edge, s, spawnDraw, pickDraw).Some?
    ensures var id := edge[PickIndex(pickDraw, |edge|)];
      var q := Pos(id.row, id.col);
      var moved := PropagateActive(sqrt, b, edge, s);
      InGrid(b, q) && At(b, q).id == id ==>
        At(MainBehaviour(sqrt, b, edge, s, spawnDraw, pickDraw).value, q) == At(moved, q).(active := true, step := 0)
  {
  }

  // ---------------------------------------------------------------------
  // One signal: the move hands the activity on to the target
  // ---------------------------------------------------------------------

  /**
   * The move of one loop turn: a target on the grid, other than the
   * source, that the signal may enter (always with rebound, otherwise only
   * a non-edge cube) becomes active with step source step + speed, and
   * carries the source's vector unless it is an edge cube, which keeps its own.
   */
  lemma AdvanceMoves(b: Board, p: Pos, edge: seq<CubeId>, rebound: bool, speed: int)
    requires Rect(b) && InGrid(b, p) && At(b, p).vector.Some?
    requires InGrid(b, Target(b, p)) && Target(b, p) != p
    requires rebound || At(b, Target(b, p)).id !in edge
    ensures var r := Advance(b, p, edge, rebound, speed); var t := Target(b, p);
      && At(r, t).active && At(r, t).step == At(b, p).step + speed
      && At(r, t).vector == if At(b, t).id in edge then At(b, t).vector else At(b, p).vector
  {
  }

  /** The cube at p is the only active cube. */
  ghost predicate Lone(b: Board, p: Pos)
    requires Rect(b)
  {
    InGrid(b, p) && At(b, p).active && forall q :: InGrid(b, q) && At(b, q).active ==> q == p
  }

  /** getAllActive of a board with one active cube lists just that cube. */
  lemma LonePositions(b: Board, p: Pos)
    requires Rect(b) && Lone(b, p)
    ensures ActivePositions(b) == [p] && ActiveCount(b) == 1
  {
    var ps := ActivePositions(b);
    ActivePositionsExact(b);
    assert p in ps;
    assert |ps| <= 1 || Precedes(ps[0], ps[1]);
    forall i | 0 <= i < |ps|
      ensures ps[i] == p
    {
      assert ps[i] in ps;
    }
    assert ps[0] == p;
  }

  /**
   * The move loop on a board with one active cube whose target is on the
   * grid, is not the cube itself and may be entered: the loop is that one
   * turn, and the target is afterwards the only active cube.
   */
  lemma LoneMoves(b: Board, edge: seq<CubeId>, s: Profile, p: Pos)
    requires Rect(b) && Ready(b, edge) && s.speed > 0 && Lone(b, p) && InGrid(b, p) && At(b, p).vector.Some?
    requires InGrid(b, Target(b, p)) && Target(b, p) != p
    requires s.rebound || At(b, Target(b, p)).id !in edge
    ensures var m := MoveAll(b, edge, s); var t := Target(b, p);
      && Lone(m, t)
      && At(m, t).step == At(b, p).step + s.speed
      && At(m, t).vector == (if At(b, t).id in edge then At(b, t).vector else At(b, p).vector)
    ensures var m := MoveAll(b, edge, s);
      forall q :: InGrid(b, q) && At(b, q).id in edge ==> At(m, q).vector == At(b, q).vector
  {
    LonePositions(b, p);
    var r := Advance(b, p, edge, s.rebound, s.speed);
    assert [p][1..] == [];
    assert AdvanceAll(b, [p], edge, s.rebound, s.speed) == AdvanceAll(r, [], edge, s.rebound, s.speed) == r;
    AdvanceMoves(b, p, edge, s.rebound, s.speed);
  }

  /**
   * _propagateActive on a board with one signal whose target may be
   * entered: the target is afterwards the only active cube, with step
   * source step + speed and the source's vector unless it is an edge cube;
   * edge cubes keep their vectors.
   */
  lemma LoneSignalMoves(sqrt: nat -> real, b: Board, edge: seq<CubeId>, s: Profile, p: Pos)
    requires IsSqrt(sqrt) && Rect(b) && Ready(b, edge) && s.speed > 0 && s.maxRaiseRadius > 0.0
    requires Lone(b, p) && InGrid(b, p) && At(b, p).vector.Some?
    requires InGrid(b, Target(b, p)) && Target(b, p) != p
    requires s.rebound || At(b, Target(b, p)).id !in edge
    ensures var r := PropagateActive(sqrt, b, edge, s); var t := Target(b, p);
      && Lone(r, t) && ActiveCount(r) == 1
      && At(r, t).step == At(b, p).step + s.speed
      && At(r, t).vector == (if At(b, t).id in edge then At(b, t).vector else At(b, p).vector)
    ensures var r := PropagateActive(sqrt, b, edge, s);
      forall q :: InGrid(b, q) && At(b, q).id in edge ==> At(r, q).vector == At(b, q).vector
  {
    LoneMoves(b, edge, s, p);
    var moved := MoveAll(b, edge, s);
    var r := PropagateActive(sqrt, b, edge, s);
    assert r == RaiseMoved(sqrt, moved, edge, s);
    RaiseKeepsLone(sqrt, moved, edge, s, Target(b, p));
    assert At(r, Target(b, p)) == At(moved, Target(b, p)).(raiseHeight := At(r, Target(b, p)).raiseHeight);
  }

  /** The raise pass changes heights only, so the only active cube stays the only one. */
  lemma RaiseKeepsLone(sqrt: nat -> real, moved: Board, edge: seq<CubeId>, s: Profile, t: Pos)
    requires IsSqrt(sqrt) && Rect(moved) && Ready(moved, edge) && s.speed > 0 && s.maxRaiseRadius > 0.0
    requires forall q :: InGrid(moved, q) && At(moved, q).active ==> At(moved, q).step >= s.speed
    requires Lone(moved, t)
    ensures Lone(RaiseMoved(sqrt, moved, edge, s), t) && ActiveCount(RaiseMoved(sqrt, moved, edge, s)) == 1
  {
    LonePositions(moved, t);
    ActivePositionsExact(RaiseMoved(sqrt, moved, edge, s));
  }

  /**
   * A grid as build leaves it for this behaviour: the members of edgeCubes
   * found on the board are exactly its non-corner boundary cells, each
   * with the vector initCubeProperties gave it.
   */
  ghost predicate Built(b: Board, edge: seq<CubeId>, speed: int)
    requires Rect(b)
  {
    forall q :: InGrid(b, q) ==>
      && (At(b, q).id in edge <==> IsEdgeCell(Rows(b), |b|, q.row, q.col))
      && (IsEdgeCell(Rows(b), |b|, q.row, q.col) ==> At(b, q).vector == EdgeVector(Rows(b), |b|, speed, q.row, q.col))
  }

  /**
   * A unit vector at q that keeps a signal on a rows x cols grid: a
   * vertical one runs in an inner column, a horizontal one in an inner
   * row, and the cell it points to exists.
   */
  predicate Heading(rows: int, cols: int, q: Pos, v: Vec)
  {
    || (v == Vec(1, 0) && 1 <= q.col <= cols - 2 && 0 <= q.row <= rows - 2)
    || (v == Vec(-1, 0) && 1 <= q.col <= cols - 2 && 1 <= q.row <= rows - 1)
    || (v == Vec(0, 1) && 1 <= q.row <= rows - 2 && 0 <= q.col <= cols - 2)
    || (v == Vec(0, -1) && 1 <= q.row <= rows - 2 && 1 <= q.col <= cols - 1)
  }

  /** One signal on the board: the only active cube, heading where it can go. */
  ghost predicate Signal(b: Board, p: Pos)
    requires Rect(b)
  {
    Lone(b, p) && InGrid(b, p) && At(b, p).vector.Some? && Heading(Rows(b), |b|, p, At(b, p).vector.value)
  }

  /** A single active edge cube of a built grid of at least 2 x 2 cells, with speed 1, is a signal. */
  lemma EdgeStartsSignal(b: Board, edge: seq<CubeId>, p: Pos)
    requires Rect(b) && |b| >= 2 && Rows(b) >= 2 && Built(b, edge, 1)
    requires Lone(b, p) && IsEdgeCell(Rows(b), |b|, p.row, p.col)
    ensures Signal(b, p)
  {
    assert InGrid(b, p);
    assert At(b, p).vector == EdgeVector(Rows(b), |b|, 1, p.row, p.col);
  }

  /**
   * With rebound and speed 1 on a built grid, one frame moves a signal one
   * cell on: the cell it lands on is the only active cube, and it keeps the
   * signal's direction or, as an edge cube, turns it with its own vector.
   */
  lemma ReboundStep(sqrt: nat -> real, b: Board, edge: seq<CubeId>, s: Profile, p: Pos)
    requires Bouncing(sqrt, b, edge, s, p)
    ensures InGrid(b, Target(b, p))
    ensures Bouncing(sqrt, PropagateActive(sqrt, b, edge, s), edge, s, Target(b, p))
  {
    HeadingTurns(Rows(b), |b|, p, At(b, p).vector.value);
    LoneSignalMoves(sqrt, b, edge, s, p);
    BuiltKept(b, PropagateActive(sqrt, b, edge, s), edge);
  }

  /**
   * A signal heading along v from p lands on a cell of the grid other
   * than p, and heads on from there: along v, or along the vector of the
   * edge cell it lands on.
   */
  lemma HeadingTurns(rows: int, cols: int, p: Pos, v: Vec)
    requires Heading(rows, cols, p, v)
    ensures var t := Pos(p.row + v.dRow, p.col + v.dCol);
      && 0 <= t.row < rows && 0 <= t.col < cols && t != p
      && Heading(rows, cols, t, if IsEdgeCell(rows, cols, t.row, t.col) then EdgeVector(rows, cols, 1, t.row, t.col).value else v)
  {
  }

  /** Built depends only on the ids and on the vectors of the edge cubes. */
  lemma BuiltKept(b: Board, r: Board, edge: seq<CubeId>)
    requires Rect(b) && Rect(r) && |r| == |b| && Rows(r) == Rows(b) && Built(b, edge, 1)
    requires forall q :: InGrid(b, q) ==> At(r, q).id == At(b, q).id
    requires forall q :: InGrid(b, q) && At(b, q).id in edge ==> At(r, q).vector == At(b, q).vector
    ensures Built(r, edge, 1)
  {
  }

  /** A signal at p on a built grid, moved with rebound at speed 1. */
  ghost predicate Bouncing(sqrt: nat -> real, b: Board, edge: seq<CubeId>, s: Profile, p: Pos)
  {
    && IsSqrt(sqrt) && Rect(b) && Ready(b, edge) && s.rebound && s.speed == 1 && s.maxRaiseRadius > 0.0
    && Built(b, edge, 1) && Signal(b, p)
  }

  /** With rebound a frame of mainBehaviour is _propagateActive alone. */
  lemma ReboundFrame(sqrt: nat -> real, b: Board, edge: seq<CubeId>, s: Profile, spawnDraw: real, pickDraw: real)
    requires IsSqrt(sqrt) && Rect(b) && Ready(b, edge) && s.speed > 0 && s.maxRaiseRadius > 0.0
    requires 0.0 <= pickDraw < 1.0 && s.rebound
    ensures MainBehaviour(sqrt, b, edge, s, spawnDraw, pickDraw) == Some(PropagateActive(sqrt, b, edge, s))
  {
  }

  /**
   * n frames of _propagateActive from a signal at p, paired with the cell
   * the signal has reached: with rebound and speed 1 on a built grid, the
   * signal is after any number of frames still the only active cube,
   * heading where it can go.
   */
  ghost function Bounces(sqrt: nat -> real, b: Board, edge: seq<CubeId>, s: Profile, p: Pos, n: nat): (r: (Board, Pos))
    requires Bouncing(sqrt, b, edge, s, p)
    ensures Bouncing(sqrt, r.0, edge, s, r.1) && ActiveCount(r.0) == 1
    decreases n
  {
    if n == 0 then
      LonePositions(b, p);
      (b, p)
    else
      ReboundStep(sqrt, b, edge, s, p);
      Bounces(sqrt, PropagateActive(sqrt, b, edge, s), edge, s, Target(b, p), n - 1)
  }

  /**
   * With rebound and speed 1, a single active edge cube of a built grid of
   * at least 2 x 2 cells starts a signal that never vanishes: after any
   * number of frames exactly one cube is active.
   */
  lemma ReboundNeverVanishes(sqrt: nat -> real, b: Board, edge: seq<CubeId>, s: Profile, p: Pos, n: nat)
    requires IsSqrt(sqrt) && Rect(b) && Ready(b, edge) && s.rebound && s.speed == 1 && s.maxRaiseRadius > 0.0
    requires |b| >= 2 && Rows(b) >= 2 && Built(b, edge, 1)
    requires Lone(b, p) && IsEdgeCell(Rows(b), |b|, p.row, p.col)
    ensures Bouncing(sqrt, b, edge, s, p) && ActiveCount(Bounces(sqrt, b, edge, s, p, n).0) == 1
  {
    EdgeStartsSignal(b, edge, p);
  }
}
