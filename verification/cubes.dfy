/**
 * Cubes and the column-major board that holds them (OrthoGrid.cubes,
 * indexed cubes[col][row]), with the queries every behaviour shares:
 * the ordered scan for active cubes and the grid-index distance.
 */
module Cubes {
  import opened Geometry

  datatype Option<T> = None | Some(value: T)

  /** A grid position (OrthoCube.gridPos = [row, col]). */
  datatype Pos = Pos(row: int, col: int)

  /**
   * The identity of one OrthoCube object: every build allocates new cube
   * objects, so identity is the build generation plus the position.
   */
  datatype CubeId = CubeId(gen: nat, row: int, col: int)

  /** A propagation vector [dRow, dCol]. */
  datatype Vec = Vec(dRow: int, dCol: int)

  /**
   * One OrthoCube. `step` and `vector` are the fields the propagation
   * behaviour adds; a cube that never received a vector has `None`.
   */
  datatype Cube = Cube(
    id: CubeId,
    center: Point,
    viewAngleDeg: real,
    edgeLength: real,
    corners: Corners,
    active: bool,
    raiseHeight: real,
    step: int,
    vector: Option<Vec>)

  /** The OrthoCube constructor: inactive, not raised, corners from _initPoints. */
  function NewCube(id: CubeId, center: Point, viewAngleDeg: real, edgeLength: real, trig: Trig): (c: Cube)
    ensures c.id == id && c.center == center
    ensures !c.active && c.raiseHeight == 0.0
    ensures c.viewAngleDeg == viewAngleDeg && c.edgeLength == edgeLength && c.step == 0 && c.vector == None
    ensures c.corners == CubeCorners(edgeLength, trig.sinHalfView, trig.cosHalfView)
    ensures c.corners.e == Point(0.0, edgeLength)
    ensures c.corners.b.x == -c.corners.c.x && c.corners.b.y == c.corners.c.y
  {
    Cube(id, center, viewAngleDeg, edgeLength,
         CubeCorners(edgeLength, trig.sinHalfView, trig.cosHalfView),
         false, 0.0, 0, None)
  }

  /** cubes[col][row]: a sequence of columns. */
  type Board = seq<seq<Cube>>

  /** The row count the source reads as `cubes[0].length`. */
  function Rows(b: Board): nat { if |b| == 0 then 0 else |b[0]| }

  /** Every column has the same length. */
  predicate Rect(b: Board) { forall c :: 0 <= c < |b| ==> |b[c]| == Rows(b) }

  predicate InGrid(b: Board, p: Pos) { 0 <= p.col < |b| && 0 <= p.row < Rows(b) }

  function At(b: Board, p: Pos): Cube
    requires Rect(b) && InGrid(b, p)
  {
    b[p.col][p.row]
  }

  /** Boards of the same shape. */
  predicate SameShape(a: Board, b: Board)
  {
    |a| == |b| && forall c :: 0 <= c < |a| ==> |a[c]| == |b[c]|
  }

  /** The board with the cube at `p` replaced by `v`. */
  function Put(b: Board, p: Pos, v: Cube): (r: Board)
    requires Rect(b) && InGrid(b, p)
    ensures Rect(r) && SameShape(r, b) && Rows(r) == Rows(b)
    ensures At(r, p) == v
    ensures forall q :: InGrid(b, q) && q != p ==> At(r, q) == At(b, q)
  {
    b[p.col := b[p.col][p.row := v]]
  }

  /** Two rectangular boards of one shape that agree on every cube are equal. */
  lemma {:induction false} SameBoard(a: Board, b: Board)
    requires Rect(a) && Rect(b) && SameShape(a, b)
    requires forall p :: InGrid(a, p) ==> At(a, p) == At(b, p)
    ensures a == b
  {
    forall c | 0 <= c < |a|
      ensures a[c] == b[c]
    {
      forall r | 0 <= r < |a[c]|
        ensures a[c][r] == b[c][r]
      {
        assert At(a, Pos(r, c)) == At(b, Pos(r, c));
      }
    }
  }

  // ---------------------------------------------------------------------
  // OrthoGrid.getAllActive: column-outer, row-inner scan
  // ---------------------------------------------------------------------

  /** Active positions among rows 0..n-1 of column c, in row order. */
  function ActiveInColumn(b: Board, c: int, n: int): seq<Pos>
    requires Rect(b) && 0 <= c < |b| && 0 <= n <= Rows(b)
    decreases n
  {
    if n == 0 then []
    else ActiveInColumn(b, c, n - 1) + (if b[c][n - 1].active then [Pos(n - 1, c)] else [])
  }

  /** Active positions in columns 0..k-1, in scan order. */
  function ActiveUpTo(b: Board, k: int): seq<Pos>
    requires Rect(b) && 0 <= k <= |b|
    decreases k
  {
    if k == 0 then [] else ActiveUpTo(b, k - 1) + ActiveInColumn(b, k - 1, Rows(b))
  }

  /** The result of getAllActive, as the positions of the cubes it returns. */
  function ActivePositions(b: Board): seq<Pos>
    requires Rect(b)
  {
    ActiveUpTo(b, |b|)
  }

  /** Scan order: column first, then row. */
  predicate Precedes(p: Pos, q: Pos) { p.col < q.col || (p.col == q.col && p.row < q.row) }

  predicate Ordered(s: seq<Pos>) { forall i, j :: 0 <= i < j < |s| ==> Precedes(s[i], s[j]) }

  lemma {:induction false} ActiveInColumnFacts(b: Board, c: int, n: int)
    requires Rect(b) && 0 <= c < |b| && 0 <= n <= Rows(b)
    ensures Ordered(ActiveInColumn(b, c, n))
    ensures forall p :: p in ActiveInColumn(b, c, n) <==>
      (p.col == c && 0 <= p.row < n && b[c][p.row].active)
  {
    if n > 0 {
      ActiveInColumnFacts(b, c, n - 1);
    }
  }

  lemma {:induction false} ActiveUpToFacts(b: Board, k: int)
    requires Rect(b) && 0 <= k <= |b|
    ensures Ordered(ActiveUpTo(b, k))
    ensures forall p :: p in ActiveUpTo(b, k) <==>
      (0 <= p.col < k && 0 <= p.row < Rows(b) && b[p.col][p.row].active)
  {
    if k > 0 {
      ActiveUpToFacts(b, k - 1);
      ActiveInColumnFacts(b, k - 1, Rows(b));
      var s, t := ActiveUpTo(b, k - 1), ActiveInColumn(b, k - 1, Rows(b));
      assert ActiveUpTo(b, k) == s + t;
      forall i, j | 0 <= i < j < |s + t|
        ensures Precedes((s + t)[i], (s + t)[j])
      {
        if j >= |s| && i < |s| {
          assert s[i] in s;
          assert t[j - |s|] in t;
        }
      }
    }
  }

  /**
   * getAllActive returns exactly the active cubes, in column-outer,
   * row-inner order (hence each one once).
   */
  lemma ActivePositionsExact(b: Board)
    requires Rect(b)
    ensures forall p :: p in ActivePositions(b) <==> InGrid(b, p) && At(b, p).active
    ensures Ordered(ActivePositions(b))
  {
    ActiveUpToFacts(b, |b|);
  }

  predicate Distinct(s: seq<Pos>) { forall i, j :: 0 <= i < j < |s| ==> s[i] != s[j] }

  lemma OrderedDistinct(s: seq<Pos>)
    requires Ordered(s)
    ensures Distinct(s)
  {
  }

  function SetOf(s: seq<Pos>): set<Pos> { set p | p in s }

  lemma {:induction false} DistinctSize(s: seq<Pos>)
    requires Distinct(s)
    ensures |SetOf(s)| == |s|
  {
    if s != [] {
      var t := s[1..];
      assert Distinct(t);
      DistinctSize(t);
      assert SetOf(s) == SetOf(t) + {s[0]};
      assert s[0] !in SetOf(t);
    }
  }

  lemma {:induction false} SubsetSize(a: set<Pos>, b: set<Pos>)
    requires a <= b
    ensures |a| <= |b|
    decreases |b|
  {
    if a != {} {
      var x :| x in a;
      SubsetSize(a - {x}, b - {x});
    }
  }

  /** The number of active cubes (getAllActive().length). */
  function ActiveCount(b: Board): nat
    requires Rect(b)
  {
    |ActivePositions(b)|
  }

  /** The active count is the size of the set of active positions. */
  lemma ActiveCountIsSetSize(b: Board)
    requires Rect(b)
    ensures ActiveCount(b) == |SetOf(ActivePositions(b))|
  {
    ActivePositionsExact(b);
    DistinctSize(ActivePositions(b));
  }

  /**
   * If every cube active on `a` lies in a set of at most n positions,
   * `a` has at most n active cubes.
   */
  lemma ActiveCountBound(a: Board, t: set<Pos>, n: nat)
    requires Rect(a)
    requires forall p :: InGrid(a, p) && At(a, p).active ==> p in t
    requires |t| <= n
    ensures ActiveCount(a) <= n
  {
    ActivePositionsExact(a);
    ActiveCountIsSetSize(a);
    SubsetSize(SetOf(ActivePositions(a)), t);
  }

  /** Boards whose cubes agree on `active` have the same getAllActive result. */
  lemma {:induction false} SameActivity(a: Board, b: Board)
    requires Rect(a) && Rect(b) && SameShape(a, b)
    requires forall p :: InGrid(a, p) ==> At(a, p).active == At(b, p).active
    ensures ActivePositions(a) == ActivePositions(b)
  {
    var k := 0;
    while k < |a|
      invariant 0 <= k <= |a|
      invariant ActiveUpTo(a, k) == ActiveUpTo(b, k)
    {
      var n := 0;
      while n < Rows(a)
        invariant 0 <= n <= Rows(a)
        invariant ActiveInColumn(a, k, n) == ActiveInColumn(b, k, n)
      {
        assert At(a, Pos(n, k)).active == At(b, Pos(n, k)).active;
        n := n + 1;
      }
      k := k + 1;
    }
  }

  /** The cubes getAllActive returns, in scan order. */
  function ActiveCubes(b: Board): (r: seq<Cube>)
    requires Rect(b)
    ensures |r| == ActiveCount(b)
    ensures forall i :: 0 <= i < |r| ==> r[i].active
  {
    ActivePositionsExact(b);
    seq(|ActivePositions(b)|, i requires 0 <= i < |ActivePositions(b)| => At(b, ActivePositions(b)[i]))
  }

  /** Replacing one cube adds at most one active cube. */
  lemma PutActiveCount(b: Board, p: Pos, v: Cube)
    requires Rect(b) && InGrid(b, p)
    ensures ActiveCount(Put(b, p, v)) <= ActiveCount(b) + 1
    ensures !v.active ==> ActiveCount(Put(b, p, v)) <= ActiveCount(b)
  {
    var t := SetOf(ActivePositions(b));
    ActivePositionsExact(b);
    ActiveCountIsSetSize(b);
    ActiveCountBound(Put(b, p, v), t + {p}, ActiveCount(b) + 1);
    if !v.active {
      ActiveCountBound(Put(b, p, v), t, ActiveCount(b));
    }
  }

  /** The grid position a cube records (OrthoCube.row, OrthoCube.col). */
  function PosOf(c: Cube): Pos { Pos(c.id.row, c.id.col) }

  // ---------------------------------------------------------------------
  // The shared height rule: sum the in-range sources, else decay
  // ---------------------------------------------------------------------

  /** DEGENERATION: the factor an uninfluenced cube's height decays by. */
  const Decay: real := 0.85

  /** How many in-range sources influenced a cube (`count`) and what they added up to (`newRaiseHeight`). */
  datatype Tally = Tally(count: nat, sum: real)

  /** `raiseHeight = (count > 0) ? newRaiseHeight : raiseHeight * DEGENERATION` */
  function Settle(height: real, t: Tally): (h: real)
    ensures t.count == 0 ==> h == height * Decay
    ensures t.count > 0 ==> h == t.sum
  {
    if t.count > 0 then t.sum else height * Decay
  }

  // ---------------------------------------------------------------------
  // OrthoGrid.cubeDistanceFromActive
  // ---------------------------------------------------------------------

  function Abs(x: int): nat { if x < 0 then -x else x }

  /** |dRow|^2 + |dCol|^2, the square of the grid-index distance. */
  function DistSq(a: Pos, b: Pos): nat
  {
    Abs(a.row - b.row) * Abs(a.row - b.row) + Abs(a.col - b.col) * Abs(a.col - b.col)
  }

  /** `sqrt` is the non-negative square root on the naturals. */
  ghost predicate IsSqrt(sqrt: nat -> real)
  {
    forall n: nat :: 0.0 <= sqrt(n) && sqrt(n) * sqrt(n) == n as real
  }

  /** Math.sqrt of DistSq: the Euclidean distance in grid-index space. */
  function CubeDistance(sqrt: nat -> real, a: Pos, b: Pos): (d: real)
    requires IsSqrt(sqrt)
    ensures 0.0 <= d
  {
    sqrt(DistSq(a, b))
  }

  /** The distance squared is the squared Euclidean distance of the grid positions. */
  lemma CubeDistanceSquared(sqrt: nat -> real, a: Pos, b: Pos)
    requires IsSqrt(sqrt)
    ensures CubeDistance(sqrt, a, b) * CubeDistance(sqrt, a, b) == DistSq(a, b) as real
  {
  }

  /** The distance is symmetric and is 0 exactly between a cube and itself. */
  lemma CubeDistanceMetric(sqrt: nat -> real, a: Pos, b: Pos)
    requires IsSqrt(sqrt)
    ensures CubeDistance(sqrt, a, b) == CubeDistance(sqrt, b, a)
    ensures CubeDistance(sqrt, a, b) == 0.0 <==> a == b
  {
    assert DistSq(a, b) == DistSq(b, a);
    var d := CubeDistance(sqrt, a, b);
    if a == b {
      assert d * d == 0.0;
      if d > 0.0 {
        SquareLt(0.0, d);
      }
    } else {
      assert DistSq(a, b) > 0;
      assert d * d > 0.0;
    }
  }

  /**
   * For a non-negative bound m, sqrt(d) <= m exactly when d <= m^2; for a
   * negative bound nothing is within range. This lets range tests be read
   * without square roots.
   */
  lemma {:induction false} WithinIffSquared(sqrt: nat -> real, d: nat, m: real)
    requires IsSqrt(sqrt)
    ensures sqrt(d) <= m <==> 0.0 <= m && d as real <= m * m
  {
    var s := sqrt(d);
    assert 0.0 <= s && s * s == d as real;
    if 0.0 <= m {
      if s <= m {
        SquareLe(s, m);
      } else {
        SquareLt(m, s);
      }
    }
  }

  /** n times a non-negative height grows with n. */
  lemma ScaleMono(a: nat, b: nat, h: real)
    requires a <= b && 0.0 <= h
    ensures a as real * h <= b as real * h
  {
    var d := (b - a) as real;
    assert b as real * h == a as real * h + d * h;
    assert 0.0 <= d * h;
  }

  /** A sum of at most `count` shares of size h, with count <= n, is within n shares. */
  lemma SharesWithin(sum: real, count: nat, n: nat, h: real)
    requires count <= n && 0.0 <= h
    requires -(count as real * h) <= sum <= count as real * h
    ensures -(n as real * h) <= sum <= n as real * h
  {
    ScaleMono(count, n, h);
  }

  lemma ScaleStep(n: nat, h: real)
    ensures (n + 1) as real * h == n as real * h + h
  {
  }

  lemma PositiveProduct(a: real, b: real)
    requires 0.0 < a && 0.0 < b
    ensures 0.0 < a * b
  {
  }

  lemma SquareLe(m: real, s: real)
    requires 0.0 <= m <= s
    ensures m * m <= s * s
  {
    assert (s - m) * (s + m) >= 0.0;
  }

  lemma SquareLt(m: real, s: real)
    requires 0.0 <= m < s
    ensures m * m < s * s
  {
    PositiveProduct(s - m, s + m);
    assert (s - m) * (s + m) == s * s - m * m;
  }
}
