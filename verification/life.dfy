/**
 * The GameOfLife behaviour as functions on a board: a snapshot of every
 * cube's `active` flag, the Moore-neighbourhood count (no wrap-around),
 * the B3/S23 rule, and the random seeding of setRandomActive.
 */
module LifeRules {
  import opened Cubes

  /** currentState: every cube's active flag, keyed by its position. */
  function Snapshot(b: Board): (s: map<Pos, bool>)
    requires Rect(b)
    ensures forall p :: p in s <==> InGrid(b, p)
    ensures forall p :: InGrid(b, p) ==> s[p] == At(b, p).active
  {
    map c, r | 0 <= c < |b| && 0 <= r < Rows(b) :: Pos(r, c) := b[c][r].active
  }

  /** The neighbour at row offset i and column offset j, when _countNeighbours looks at it. */
  predicate Looked(rows: int, cols: int, p: Pos, i: int, j: int)
  {
    0 <= p.row + i < rows && 0 <= p.col + j < cols && !(j == 0 && i == 0)
  }

  /** 1 when that neighbour is looked at and currentState.get of it is true. */
  function Alive(s: map<Pos, bool>, rows: int, cols: int, p: Pos, i: int, j: int): nat
  {
    var q := Pos(p.row + i, p.col + j);
    if Looked(rows, cols, p, i, j) && q in s && s[q] then 1 else 0
  }

  /** Column offset j and row offset i of the k-th visit: j = -1..1 outside, i = -1..1 inside. */
  function OffJ(k: int): int { if k < 3 then -1 else if k < 6 then 0 else 1 }
  function OffI(k: int): int { k - 3 * (OffJ(k) + 1) - 1 }

  /** aliveCount after the first k of the nine visits of _countNeighbours. */
  function CountUpTo(s: map<Pos, bool>, rows: int, cols: int, p: Pos, k: nat): nat
    requires k <= 9
  {
    if k == 0 then 0
    else CountUpTo(s, rows, cols, p, k - 1) + Alive(s, rows, cols, p, OffI(k - 1), OffJ(k - 1))
  }

  /** _countNeighbours: the live cells among the eight around p that lie inside the grid. */
  function NeighbourCount(s: map<Pos, bool>, rows: int, cols: int, p: Pos): (n: nat)
    ensures n <= 8
  {
    Alive(s, rows, cols, p, -1, -1) + Alive(s, rows, cols, p, 0, -1) + Alive(s, rows, cols, p, 1, -1)
    + Alive(s, rows, cols, p, -1, 0) + Alive(s, rows, cols, p, 0, 0) + Alive(s, rows, cols, p, 1, 0)
    + Alive(s, rows, cols, p, -1, 1) + Alive(s, rows, cols, p, 0, 1) + Alive(s, rows, cols, p, 1, 1)
  }

  /** Visit 3(j+1)+(i+1) of _countNeighbours looks at offset (i, j). */
  lemma CountStep(s: map<Pos, bool>, rows: int, cols: int, p: Pos, i: int, j: int)
    requires -1 <= i <= 1 && -1 <= j <= 1
    ensures CountUpTo(s, rows, cols, p, 3 * (j + 1) + (i + 1) + 1)
         == CountUpTo(s, rows, cols, p, 3 * (j + 1) + (i + 1)) + Alive(s, rows, cols, p, i, j)
  {
    var k := 3 * (j + 1) + (i + 1);
    assert OffJ(k) == j;
  }

  /** The nine visits in loop order add up to the neighbour count. */
  lemma CountUpToAll(s: map<Pos, bool>, rows: int, cols: int, p: Pos)
    ensures CountUpTo(s, rows, cols, p, 9) == NeighbourCount(s, rows, cols, p)
  {
    var k := 0;
    while k < 9
      invariant 0 <= k <= 9
      invariant CountUpTo(s, rows, cols, p, k) == Partial(s, rows, cols, p, k)
    {
      k := k + 1;
    }
  }

  /** The first k terms of NeighbourCount, written out. */
  function Partial(s: map<Pos, bool>, rows: int, cols: int, p: Pos, k: int): nat
  {
    (if k > 0 then Alive(s, rows, cols, p, -1, -1) else 0)
    + (if k > 1 then Alive(s, rows, cols, p, 0, -1) else 0)
    + (if k > 2 then Alive(s, rows, cols, p, 1, -1) else 0)
    + (if k > 3 then Alive(s, rows, cols, p, -1, 0) else 0)
    + (if k > 4 then Alive(s, rows, cols, p, 0, 0) else 0)
    + (if k > 5 then Alive(s, rows, cols, p, 1, 0) else 0)
    + (if k > 6 then Alive(s, rows, cols, p, -1, 1) else 0)
    + (if k > 7 then Alive(s, rows, cols, p, 0, 1) else 0)
    + (if k > 8 then Alive(s, rows, cols, p, 1, 1) else 0)
  }

  /** q is one of the eight cells around p. */
  predicate Adjacent(p: Pos, q: Pos)
  {
    q != p && -1 <= q.row - p.row <= 1 && -1 <= q.col - p.col <= 1
  }

  /**
   * The reference definition: the live cells of the snapshot that are
   * adjacent to p and inside the rows x cols grid.
   */
  function LiveNeighbours(s: map<Pos, bool>, rows: int, cols: int, p: Pos): set<Pos>
  {
    set q | q in s && Adjacent(p, q) && 0 <= q.row < rows && 0 <= q.col < cols && s[q]
  }

  /** The visit index of the neighbour q of p. */
  function Visit(p: Pos, q: Pos): int { (q.col - p.col + 1) * 3 + (q.row - p.row + 1) }

  /** The visit with offsets i, j counts one exactly when its cell is a live neighbour. */
  lemma AliveIsLive(s: map<Pos, bool>, rows: int, cols: int, p: Pos, i: int, j: int)
    requires -1 <= i <= 1 && -1 <= j <= 1
    ensures Alive(s, rows, cols, p, i, j) == 1 <==> Pos(p.row + i, p.col + j) in LiveNeighbours(s, rows, cols, p)
  {
  }

  /** The live neighbours among the first k visits. */
  function LiveUpTo(s: map<Pos, bool>, rows: int, cols: int, p: Pos, k: nat): set<Pos>
    requires k <= 9
  {
    if k == 0 then {}
    else
      LiveUpTo(s, rows, cols, p, k - 1)
      + (if Alive(s, rows, cols, p, OffI(k - 1), OffJ(k - 1)) == 1 then {Pos(p.row + OffI(k - 1), p.col + OffJ(k - 1))} else {})
  }

  /** The cells added by the first k visits lie around p and have visit indices below k. */
  lemma {:induction false} LiveUpToVisited(s: map<Pos, bool>, rows: int, cols: int, p: Pos, k: nat)
    requires k <= 9
    ensures forall q :: q in LiveUpTo(s, rows, cols, p, k) ==>
      -1 <= q.row - p.row <= 1 && -1 <= q.col - p.col <= 1 && Visit(p, q) < k
  {
    if k > 0 {
      LiveUpToVisited(s, rows, cols, p, k - 1);
    }
  }

  /** Visit k looks at the cell whose visit index is k. */
  lemma VisitOf(p: Pos, k: int)
    requires 0 <= k < 9
    ensures Visit(p, Pos(p.row + OffI(k), p.col + OffJ(k))) == k
  {
    if k < 3 {
    } else if k < 6 {
    } else {
    }
  }

  lemma AddFresh(a: set<Pos>, x: Pos)
    requires x !in a
    ensures |a + {x}| == |a| + 1
  {
  }

  /** Each visit adds a cell no earlier visit added, so the set grows with the count. */
  lemma {:induction false} LiveUpToSize(s: map<Pos, bool>, rows: int, cols: int, p: Pos, k: nat)
    requires k <= 9
    ensures |LiveUpTo(s, rows, cols, p, k)| == CountUpTo(s, rows, cols, p, k)
  {
    if k > 0 {
      LiveUpToSize(s, rows, cols, p, k - 1);
      LiveUpToVisited(s, rows, cols, p, k - 1);
      var prev := LiveUpTo(s, rows, cols, p, k - 1);
      var q := Pos(p.row + OffI(k - 1), p.col + OffJ(k - 1));
      VisitOf(p, k - 1);
      assert q !in prev;
      var hit := Alive(s, rows, cols, p, OffI(k - 1), OffJ(k - 1));
      assert CountUpTo(s, rows, cols, p, k) == CountUpTo(s, rows, cols, p, k - 1) + hit;
      if hit == 1 {
        AddFresh(prev, q);
      }
    }
  }

  /** Every visit that counts puts its cell in the set. */
  lemma {:induction false} LiveUpToVisits(s: map<Pos, bool>, rows: int, cols: int, p: Pos, k: nat)
    requires k <= 9
    ensures forall q :: q in LiveUpTo(s, rows, cols, p, k) ==>
      q in LiveNeighbours(s, rows, cols, p)
    ensures forall m :: 0 <= m < k && Alive(s, rows, cols, p, OffI(m), OffJ(m)) == 1 ==>
      Pos(p.row + OffI(m), p.col + OffJ(m)) in LiveUpTo(s, rows, cols, p, k)
  {
    if k > 0 {
      LiveUpToVisits(s, rows, cols, p, k - 1);
      var prev := LiveUpTo(s, rows, cols, p, k - 1);
      var i, j := OffI(k - 1), OffJ(k - 1);
      var q := Pos(p.row + i, p.col + j);
      assert -1 <= i <= 1 && -1 <= j <= 1;
      AliveIsLive(s, rows, cols, p, i, j);
    }
  }

  /** The loop's count is the number of live neighbours inside the grid. */
  lemma NeighbourCountIsSize(s: map<Pos, bool>, rows: int, cols: int, p: Pos)
    ensures NeighbourCount(s, rows, cols, p) == |LiveNeighbours(s, rows, cols, p)|
  {
    CountUpToAll(s, rows, cols, p);
    LiveUpToSize(s, rows, cols, p, 9);
    LiveUpToVisits(s, rows, cols, p, 9);
    var live := LiveUpTo(s, rows, cols, p, 9);
    forall q | q in LiveNeighbours(s, rows, cols, p)
      ensures q in live
    {
      var i, j := q.row - p.row, q.col - p.col;
      AliveIsLive(s, rows, cols, p, i, j);
      var m := (j + 1) * 3 + (i + 1);
      assert OffI(m) == i && OffJ(m) == j;
    }
    assert live == LiveNeighbours(s, rows, cols, p);
  }

  /** A corner cell has at most three neighbours inside the grid. */
  lemma CornerCount(s: map<Pos, bool>, rows: int, cols: int, p: Pos)
    requires (p.row == 0 || p.row == rows - 1) && (p.col == 0 || p.col == cols - 1)
    ensures NeighbourCount(s, rows, cols, p) <= 3
  {
  }

  /** _applyRules on a cube that is `alive` with n live neighbours. */
  function ApplyRules(alive: bool, n: int): (r: bool)
    ensures r <==> n == 3 || (alive && n == 2)
  {
    if alive then
      if n < 2 then false
      else if n == 2 || n == 3 then true
      else if n > 3 then false
      else alive
    else if n == 3 then true
    else alive
  }

  /** One cube after the second loop of mainBehaviour. */
  function LifeCube(c: Cube, s: map<Pos, bool>, rows: int, cols: int, maxRaiseHeight: real): (r: Cube)
    ensures r == c.(active := r.active, raiseHeight := r.raiseHeight)
    ensures r.raiseHeight == if r.active then maxRaiseHeight else 0.0
  {
    var alive := ApplyRules(c.active, NeighbourCount(s, rows, cols, PosOf(c)));
    c.(active := alive, raiseHeight := if alive then maxRaiseHeight else 0.0)
  }

  /**
   * GameOfLife.mainBehaviour: every cube's next state comes from the
   * snapshot taken before any cube changed.
   */
  function LifeStep(b: Board, maxRaiseHeight: real): (r: Board)
    requires Rect(b)
    ensures Rect(r) && SameShape(r, b) && Rows(r) == Rows(b)
    ensures forall q :: InGrid(b, q) ==> At(r, q) == LifeCube(At(b, q), Snapshot(b), Rows(b), |b|, maxRaiseHeight)
  {
    var s := Snapshot(b);
    seq(|b|, c requires 0 <= c < |b| =>
      seq(|b[c]|, n requires 0 <= n < |b[c]| => LifeCube(b[c][n], s, Rows(b), |b|, maxRaiseHeight)))
  }

  /** Cube ids name their positions. */
  ghost predicate IdsMatch(b: Board)
    requires Rect(b)
  {
    forall q :: InGrid(b, q) ==> PosOf(At(b, q)) == q
  }

  /**
   * The next generation follows B3/S23 on the snapshot: a cube is alive
   * afterwards exactly when it had 3 live neighbours, or was alive with 2,
   * and its height is maxRaiseHeight exactly when it is alive.
   */
  lemma LifeStepRule(b: Board, maxRaiseHeight: real, q: Pos)
    requires Rect(b) && IdsMatch(b) && InGrid(b, q)
    ensures At(LifeStep(b, maxRaiseHeight), q).active <==>
      |LiveNeighbours(Snapshot(b), Rows(b), |b|, q)| == 3
      || (At(b, q).active && |LiveNeighbours(Snapshot(b), Rows(b), |b|, q)| == 2)
    ensures At(LifeStep(b, maxRaiseHeight), q).raiseHeight == if At(LifeStep(b, maxRaiseHeight), q).active then maxRaiseHeight else 0.0
  {
    NeighbourCountIsSize(Snapshot(b), Rows(b), |b|, q);
  }

  /** The 2 x 2 block with top-left cell (row, col). */
  predicate InBlock(q: Pos, row: int, col: int)
  {
    row <= q.row <= row + 1 && col <= q.col <= col + 1
  }

  /** A 2 x 2 block with no other live cell is stable. */
  lemma BlockIsStable(b: Board, maxRaiseHeight: real, row: int, col: int)
    requires Rect(b) && IdsMatch(b)
    requires forall q :: InGrid(b, q) ==> (At(b, q).active <==> InBlock(q, row, col))
    requires InGrid(b, Pos(row, col)) && InGrid(b, Pos(row + 1, col + 1))
    ensures forall q :: InGrid(b, q) ==> At(LifeStep(b, maxRaiseHeight), q).active == At(b, q).active
  {
    var s := Snapshot(b);
    forall q | InGrid(b, q)
      ensures At(LifeStep(b, maxRaiseHeight), q).active == At(b, q).active
    {
      BlockCount(s, Rows(b), |b|, q, row, col);
    }
  }

  /** Neighbour counts around an isolated block: 3 inside it, at most 2 outside. */
  lemma BlockCount(s: map<Pos, bool>, rows: int, cols: int, q: Pos, row: int, col: int)
    requires forall p :: p in s <==> 0 <= p.row < rows && 0 <= p.col < cols
    requires forall p :: p in s ==> (s[p] <==> InBlock(p, row, col))
    requires 0 <= row && row + 1 < rows && 0 <= col && col + 1 < cols
    ensures InBlock(q, row, col) ==> NeighbourCount(s, rows, cols, q) == 3
    ensures !InBlock(q, row, col) ==> NeighbourCount(s, rows, cols, q) <= 2
  {
  }

  /** Around a lone live cell every neighbour count is at most 1. */
  lemma LoneCount(s: map<Pos, bool>, rows: int, cols: int, q: Pos, p: Pos)
    requires forall x :: x in s ==> (s[x] <==> x == p)
    ensures NeighbourCount(s, rows, cols, q) <= 1
  {
  }

  /** A single live cell with no other live cell dies, and nothing is born. */
  lemma LoneCellDies(b: Board, maxRaiseHeight: real, p: Pos)
    requires Rect(b) && IdsMatch(b) && InGrid(b, p)
    requires forall q :: InGrid(b, q) ==> (At(b, q).active <==> q == p)
    ensures forall q :: InGrid(b, q) ==> !At(LifeStep(b, maxRaiseHeight), q).active
  {
    var s := Snapshot(b);
    forall q | InGrid(b, q)
      ensures !At(LifeStep(b, maxRaiseHeight), q).active
    {
      LoneCount(s, Rows(b), |b|, q, p);
    }
  }

  // ---------------------------------------------------------------------
  // setRandomActive
  // ---------------------------------------------------------------------

  /** The positions of a cols x rows grid in scan order: column outside, row inside. */
  function ScanCells(cols: nat, rows: nat): (ps: seq<Pos>)
    ensures forall q :: q in ps <==> 0 <= q.col < cols && 0 <= q.row < rows
  {
    ScanFrom(0, cols, rows)
  }

  /** The scan from column c on. */
  function ScanFrom(c: int, cols: int, rows: int): (ps: seq<Pos>)
    requires 0 <= c
    ensures forall q :: q in ps <==> c <= q.col < cols && 0 <= q.row < rows
    decreases cols - c
  {
    if c >= cols then [] else ColumnFrom(c, 0, rows) + ScanFrom(c + 1, cols, rows)
  }

  /** Column c from row r down. */
  function ColumnFrom(c: int, r: int, rows: int): (ps: seq<Pos>)
    requires 0 <= r
    ensures forall q :: q in ps <==> q.col == c && r <= q.row < rows
    decreases rows - r
  {
    if r >= rows then [] else [Pos(r, c)] + ColumnFrom(c, r + 1, rows)
  }

  /** One draw of Math.random per cube, indexed draws[col][row]. */
  predicate DrawsFit(draws: seq<seq<real>>, b: Board)
  {
    |draws| == |b| && forall c :: 0 <= c < |draws| ==> |draws[c]| == Rows(b)
  }

  /**
   * setRandomActive as written: `count` is never incremented, so the
   * `count < limit` test is `0 < limit` for every cube.
   */
  function SeedAsWritten(b: Board, ps: seq<Pos>, limit: int, chance: real, draws: seq<seq<real>>): (r: Board)
    requires Rect(b) && DrawsFit(draws, b) && forall i :: 0 <= i < |ps| ==> InGrid(b, ps[i])
    ensures Rect(r) && SameShape(r, b) && Rows(r) == Rows(b)
    decreases |ps|
  {
    if ps == [] then b
    else
      var p := ps[0];
      assert InGrid(b, p) && |draws[p.col]| == Rows(b);
      var b1 := if 0 < limit && draws[p.col][p.row] > 1.0 - chance then Put(b, p, At(b, p).(active := true)) else b;
      SeedAsWritten(b1, ps[1..], limit, chance, draws)
  }

  /**
   * setRandomActive as written, cell by cell: a cube ends active when it
   * was, or when the limit is positive, it is on the scan and its draw
   * exceeds 1 - chance; nothing else about it changes.
   */
  lemma {:induction false} SeedAsWrittenExact(b: Board, ps: seq<Pos>, limit: int, chance: real, draws: seq<seq<real>>)
    requires Rect(b) && DrawsFit(draws, b) && forall i :: 0 <= i < |ps| ==> InGrid(b, ps[i])
    ensures forall q :: InGrid(b, q) ==>
      At(SeedAsWritten(b, ps, limit, chance, draws), q)
        == At(b, q).(active := At(b, q).active || (0 < limit && q in ps && draws[q.col][q.row] > 1.0 - chance))
    decreases |ps|
  {
    if ps != [] {
      var p := ps[0];
      var b1 := if 0 < limit && draws[p.col][p.row] > 1.0 - chance then Put(b, p, At(b, p).(active := true)) else b;
      SeedAsWrittenExact(b1, ps[1..], limit, chance, draws);
      forall q | InGrid(b, q)
        ensures At(SeedAsWritten(b, ps, limit, chance, draws), q)
          == At(b, q).(active := At(b, q).active || (0 < limit && q in ps && draws[q.col][q.row] > 1.0 - chance))
      {
        assert q in ps <==> q == p || q in ps[1..];
      }
    }
  }

  /**
   * setRandomActive as intended: each cube set active counts towards
   * `limit`, and no cube is set once `count` reaches it.
   */
  function SeedCapped(b: Board, ps: seq<Pos>, count: int, limit: int, chance: real, draws: seq<seq<real>>): (r: Board)
    requires Rect(b) && DrawsFit(draws, b) && forall i :: 0 <= i < |ps| ==> InGrid(b, ps[i])
    ensures Rect(r) && SameShape(r, b) && Rows(r) == Rows(b)
    decreases |ps|
  {
    if ps == [] then b
    else
      var p := ps[0];
      assert InGrid(b, p) && |draws[p.col]| == Rows(b);
      if count < limit && draws[p.col][p.row] > 1.0 - chance then
        SeedCapped(Put(b, p, At(b, p).(active := true)), ps[1..], count + 1, limit, chance, draws)
      else
        SeedCapped(b, ps[1..], count, limit, chance, draws)
  }

  /** The corrected seeding adds at most limit - count active cubes. */
  lemma {:induction false} SeedCappedWithinLimit(b: Board, ps: seq<Pos>, count: int, limit: int, chance: real, draws: seq<seq<real>>)
    requires Rect(b) && DrawsFit(draws, b) && forall i :: 0 <= i < |ps| ==> InGrid(b, ps[i])
    ensures ActiveCount(SeedCapped(b, ps, count, limit, chance, draws)) <= ActiveCount(b) + (if count < limit then limit - count else 0)
    decreases |ps|
  {
    if ps != [] {
      var p := ps[0];
      if count < limit && draws[p.col][p.row] > 1.0 - chance {
        var b1 := Put(b, p, At(b, p).(active := true));
        PutActiveCount(b, p, At(b, p).(active := true));
        SeedCappedWithinLimit(b1, ps[1..], count + 1, limit, chance, draws);
      } else {
        SeedCappedWithinLimit(b, ps[1..], count, limit, chance, draws);
      }
    }
  }

  /** The corrected seeding only sets cubes active: every cube active before still is. */
  lemma {:induction false} SeedCappedKeepsActive(b: Board, ps: seq<Pos>, count: int, limit: int, chance: real, draws: seq<seq<real>>)
    requires Rect(b) && DrawsFit(draws, b) && forall i :: 0 <= i < |ps| ==> InGrid(b, ps[i])
    ensures forall q :: InGrid(b, q) ==>
      At(SeedCapped(b, ps, count, limit, chance, draws), q) == At(b, q).(active := At(SeedCapped(b, ps, count, limit, chance, draws), q).active)
    ensures forall q :: InGrid(b, q) && At(b, q).active ==> At(SeedCapped(b, ps, count, limit, chance, draws), q).active
    decreases |ps|
  {
    if ps != [] {
      var p := ps[0];
      if count < limit && draws[p.col][p.row] > 1.0 - chance {
        SeedCappedKeepsActive(Put(b, p, At(b, p).(active := true)), ps[1..], count + 1, limit, chance, draws);
      } else {
        SeedCappedKeepsActive(b, ps[1..], count, limit, chance, draws);
      }
    }
  }

  /** A cube of the right shape for the concrete boards below. */
  function Plain(row: int, col: int): Cube
  {
    Cube(CubeId(0, row, col), Geometry.Point(0.0, 0.0), 0.0, 0.0,
         Geometry.CubeCorners(0.0, 0.0, 0.0), false, 0.0, 0, None)
  }

  /**
   * As written, the limit is ignored: with limit 1 and chance 1, seeding an
   * empty one-column, two-row grid activates both cubes.
   */
  lemma SeedAsWrittenIgnoresLimit()
    ensures var b: Board := [[Plain(0, 0), Plain(1, 0)]];
      ActiveCount(b) == 0
      && ActiveCount(SeedAsWritten(b, ScanCells(1, 2), 1, 1.0, [[0.5, 0.5]])) == 2
  {
    var b: Board := [[Plain(0, 0), Plain(1, 0)]];
    var ps := ScanCells(1, 2);
    assert ps == [Pos(0, 0), Pos(1, 0)] by {
      assert ColumnFrom(0, 1, 2) == [Pos(1, 0)];
      assert ScanFrom(1, 1, 2) == [];
    }
    var d := [[0.5, 0.5]];
    var b1 := Put(b, Pos(0, 0), Plain(0, 0).(active := true));
    var b2 := Put(b1, Pos(1, 0), Plain(1, 0).(active := true));
    assert SeedAsWritten(b2, [], 1, 1.0, d) == b2;
    assert SeedAsWritten(b1, ps[1..], 1, 1.0, d) == b2;
    assert SeedAsWritten(b, ps, 1, 1.0, d) == b2;
    assert ActiveInColumn(b2, 0, 1) == [Pos(0, 0)];
    assert ActivePositions(b2) == [Pos(0, 0), Pos(1, 0)];
    assert ActiveInColumn(b, 0, 1) == [];
    assert ActivePositions(b) == [];
  }

  /** The same grid and draws under the corrected seeding activate one cube. */
  lemma SeedCappedRespectsLimit()
    ensures var b: Board := [[Plain(0, 0), Plain(1, 0)]];
      ActiveCount(SeedCapped(b, ScanCells(1, 2), 0, 1, 1.0, [[0.5, 0.5]])) == 1
  {
    var b: Board := [[Plain(0, 0), Plain(1, 0)]];
    var ps := ScanCells(1, 2);
    assert ps == [Pos(0, 0), Pos(1, 0)] by {
      assert ColumnFrom(0, 1, 2) == [Pos(1, 0)];
      assert ScanFrom(1, 1, 2) == [];
    }
    var d := [[0.5, 0.5]];
    var b1 := Put(b, Pos(0, 0), Plain(0, 0).(active := true));
    assert SeedCapped(b1, [], 1, 1, 1.0, d) == b1;
    assert SeedCapped(b1, ps[1..], 1, 1, 1.0, d) == b1;
    assert SeedCapped(b, ps, 0, 1, 1.0, d) == b1;
    assert ActiveInColumn(b1, 0, 1) == [Pos(0, 0)];
    assert ActivePositions(b1) == [Pos(0, 0)];
  }
}
