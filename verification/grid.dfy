/**
 * OrthoGrid: the container that owns the cubes, builds them, and runs one
 * behaviour per frame. The cubes array is the field `cubes`, which every
 * method reassigns; each behaviour method is proved against the board
 * function of its rules module.
 */
module Grid {
  import opened Geometry
  import opened Cubes
  import PropagationRules
  import RippleRules
  import LifeRules

  /** The behaviour profile whose properties the grid has inherited. */
  datatype Behaviour =
    | RandomPropagation(p: PropagationRules.Profile)
    | Ripple(r: RippleRules.Profile)
    | GameOfLife(maxRaiseHeight: real)

  /** Position of the top cube and the grid size. */
  datatype StructureProfile = StructureProfile(x: real, y: real, maxRow: int, maxCol: int)

  /** Cube edge length, gap between cubes, view angle in degrees. */
  datatype CubeProfile = CubeProfile(edgeLength: real, separation: real, viewAngleDeg: real)

  /** Drawing style and the colour range the heights are mapped onto. */
  datatype RenderProfile = RenderProfile(
    dimensional: bool,
    coldCol: Colour,
    warmCol: Colour,
    lerpLowerBound: real,
    lerpUpperBound: real)

  /** A loop bound `n` as a count: the loop `for (i = 0; i < n; i++)` runs max(n, 0) times. */
  function Count(n: int): nat { if n < 0 then 0 else n }

  /**
   * setActive on the cube at `p`: the flag becomes `value` when one is
   * given and is toggled otherwise; no other field and no other cube changes.
   */
  function Activate(b: Board, p: Pos, value: Option<bool>): (r: Board)
    requires Rect(b) && InGrid(b, p)
    ensures Rect(r) && SameShape(r, b) && Rows(r) == Rows(b)
    ensures At(r, p).active == if value.Some? then value.value else !At(b, p).active
    ensures At(r, p) == At(b, p).(active := At(r, p).active)
    ensures forall q :: InGrid(b, q) && q != p ==> At(r, q) == At(b, q)
  {
    var c := At(b, p);
    Put(b, p, c.(active := if value.Some? then value.value else !c.active))
  }

  /** Toggling a cube twice restores the board. */
  lemma ToggleTwice(b: Board, p: Pos)
    requires Rect(b) && InGrid(b, p)
    ensures Activate(Activate(b, p, None), p, None) == b
  {
    var r := Activate(Activate(b, p, None), p, None);
    SameBoard(r, b);
  }

  /** Setting a flag is idempotent, and clearing one never adds an active cube. */
  lemma SetTwice(b: Board, p: Pos, v: bool)
    requires Rect(b) && InGrid(b, p)
    ensures Activate(Activate(b, p, Some(v)), p, Some(v)) == Activate(b, p, Some(v))
    ensures !v ==> ActiveCount(Activate(b, p, Some(v))) <= ActiveCount(b)
    ensures ActiveCount(Activate(b, p, Some(v))) <= ActiveCount(b) + 1
  {
    var once := Activate(b, p, Some(v));
    SameBoard(Activate(once, p, Some(v)), once);
    PutActiveCount(b, p, At(once, p));
    assert once == Put(b, p, At(once, p));
  }

  /**
   * A cube after loadBehaviourProfile: inactive, and initialised for the
   * new behaviour; its identity, place and height are kept.
   */
  function ResetCube(c: Cube, b: Behaviour, maxRow: int, maxCol: int): (r: Cube)
    ensures !r.active
    ensures r == c.(active := false, step := r.step, vector := r.vector)
    ensures b.RandomPropagation? ==> r == PropagationRules.InitCube(c.(active := false), maxRow, maxCol, b.p.speed)
    ensures !b.RandomPropagation? ==> r == c.(active := false)
  {
    var cleared := c.(active := false);
    if b.RandomPropagation? then PropagationRules.InitCube(cleared, maxRow, maxCol, b.p.speed) else cleared
  }

  /** A board with no active cube has an empty getAllActive. */
  lemma NoneActive(b: Board)
    requires Rect(b)
    requires forall q :: InGrid(b, q) ==> !At(b, q).active
    ensures ActiveCount(b) == 0
  {
    ActivePositionsExact(b);
    ActiveCountIsSetSize(b);
    assert SetOf(ActivePositions(b)) == {};
  }

  /**
   * The setRandomActive loop with the scan positions `rest` still to
   * visit: seeding them from b gives what seeding the whole scan from b0
   * gives.
   */
  ghost predicate SeedLeft(b: Board, b0: Board, rest: seq<Pos>, limit: int, chance: real, draws: seq<seq<real>>)
  {
    && Rect(b0) && Rect(b) && SameShape(b, b0) && Rows(b) == Rows(b0)
    && LifeRules.DrawsFit(draws, b0) && LifeRules.DrawsFit(draws, b)
    && (forall i :: 0 <= i < |rest| ==> InGrid(b0, rest[i]))
    && LifeRules.SeedAsWritten(b, rest, limit, chance, draws)
       == LifeRules.SeedAsWritten(b0, LifeRules.ScanCells(|b0|, Rows(b0)), limit, chance, draws)
  }

  /** One step of the seeding loop keeps SeedLeft. */
  lemma SeedNext(b: Board, b0: Board, rest: seq<Pos>, limit: int, chance: real, draws: seq<seq<real>>)
    requires SeedLeft(b, b0, rest, limit, chance, draws) && rest != []
    ensures InGrid(b, rest[0]) && |draws[rest[0].col]| == Rows(b)
    ensures var p := rest[0];
      if 0 < limit && draws[p.col][p.row] > 1.0 - chance
      then SeedLeft(Activate(b, p, Some(true)), b0, rest[1..], limit, chance, draws)
      else SeedLeft(b, b0, rest[1..], limit, chance, draws)
  {
  }

  /** SeedLeft inside column `col`, before row `row`. */
  ghost predicate RowsLeft(b: Board, b0: Board, col: int, row: int, rest: seq<Pos>, limit: int, chance: real, draws: seq<seq<real>>)
  {
    && 0 <= col < |b0| && 0 <= row <= Rows(b0)
    && rest == LifeRules.ColumnFrom(col, row, Rows(b0)) + LifeRules.ScanFrom(col + 1, |b0|, Rows(b0))
    && SeedLeft(b, b0, rest, limit, chance, draws)
  }

  lemma RowsStart(b: Board, b0: Board, col: int, rest: seq<Pos>, limit: int, chance: real, draws: seq<seq<real>>)
    requires 0 <= col < |b0| && rest == LifeRules.ScanFrom(col, |b0|, Rows(b0))
    requires SeedLeft(b, b0, rest, limit, chance, draws)
    ensures RowsLeft(b, b0, col, 0, rest, limit, chance, draws)
  {
  }

  /** One row of the seeding loop keeps RowsLeft. */
  lemma RowNext(b: Board, b0: Board, col: int, row: int, rest: seq<Pos>, limit: int, chance: real, draws: seq<seq<real>>)
    requires RowsLeft(b, b0, col, row, rest, limit, chance, draws) && row < Rows(b0)
    ensures Rect(b) && InGrid(b, Pos(row, col)) && LifeRules.DrawsFit(draws, b)
    ensures var seeded := 0 < limit && draws[col][row] > 1.0 - chance;
      RowsLeft(if seeded then Activate(b, Pos(row, col), Some(true)) else b, b0, col, row + 1, rest[1..], limit, chance, draws)
  {
    ColumnHead(col, row, Rows(b0), LifeRules.ScanFrom(col + 1, |b0|, Rows(b0)));
    SeedNext(b, b0, rest, limit, chance, draws);
  }

  /** The rest of a column scan starts with the next row of that column. */
  lemma ColumnHead(col: int, row: int, rows: int, tail: seq<Pos>)
    requires 0 <= row < rows
    ensures var rest := LifeRules.ColumnFrom(col, row, rows) + tail;
      rest != [] && rest[0] == Pos(row, col) && rest[1..] == LifeRules.ColumnFrom(col, row + 1, rows) + tail
  {
    var rest := LifeRules.ColumnFrom(col, row, rows) + tail;
    assert rest == [Pos(row, col)] + (LifeRules.ColumnFrom(col, row + 1, rows) + tail);
  }

  lemma RowsDone(b: Board, b0: Board, col: int, rest: seq<Pos>, limit: int, chance: real, draws: seq<seq<real>>)
    requires RowsLeft(b, b0, col, Rows(b), rest, limit, chance, draws)
    ensures rest == LifeRules.ScanFrom(col + 1, |b0|, Rows(b0))
    ensures SeedLeft(b, b0, rest, limit, chance, draws)
  {
  }

  /** When the scan is over, the board is the seeding of b0. */
  lemma SeedDone(b: Board, b0: Board, limit: int, chance: real, draws: seq<seq<real>>)
    requires SeedLeft(b, b0, [], limit, chance, draws)
    ensures b == LifeRules.SeedAsWritten(b0, LifeRules.ScanCells(|b0|, Rows(b0)), limit, chance, draws)
  {
  }

  /** The edge list of an initialisation pass, after one more row of column col. */
  lemma ColumnEdgesNext(e0: seq<CubeId>, prop: bool, gen: nat, maxRow: int, maxCol: int, col: int, row: nat)
    ensures (e0 + if prop then PropagationRules.ColumnEdges(gen, maxRow, maxCol, col, row) else [])
      + (if prop && PropagationRules.IsEdgeCell(maxRow, maxCol, row, col) then [CubeId(gen, row, col)] else [])
      == e0 + if prop then PropagationRules.ColumnEdges(gen, maxRow, maxCol, col, row + 1) else []
  {
    if prop {
      AppendAssoc(e0, PropagationRules.ColumnEdges(gen, maxRow, maxCol, col, row),
                  if PropagationRules.IsEdgeCell(maxRow, maxCol, row, col) then [CubeId(gen, row, col)] else []);
    }
  }

  /** The edge list of an initialisation pass, after one more column. */
  lemma ScanEdgesNext(e0: seq<CubeId>, prop: bool, gen: nat, maxRow: int, maxCol: int, col: nat, rows: nat)
    ensures (e0 + if prop then PropagationRules.ScanEdges(gen, maxRow, maxCol, col, rows) else [])
      + (if prop then PropagationRules.ColumnEdges(gen, maxRow, maxCol, col, rows) else [])
      == e0 + if prop then PropagationRules.ScanEdges(gen, maxRow, maxCol, col + 1, rows) else []
  {
    if prop {
      AppendAssoc(e0, PropagationRules.ScanEdges(gen, maxRow, maxCol, col, rows),
                  PropagationRules.ColumnEdges(gen, maxRow, maxCol, col, rows));
    }
  }

  lemma AppendAssoc<T>(a: seq<T>, b: seq<T>, c: seq<T>)
    ensures (a + b) + c == a + (b + c)
  {
  }

  /** cs are the cubes of b at the positions ps, in order. */
  ghost predicate Picks(b: Board, ps: seq<Pos>, cs: seq<Cube>)
  {
    Rect(b) && |cs| == |ps| && forall i :: 0 <= i < |ps| ==> InGrid(b, ps[i]) && cs[i] == At(b, ps[i])
  }

  lemma PickNext(b: Board, ps: seq<Pos>, cs: seq<Cube>, p: Pos)
    requires Picks(b, ps, cs) && InGrid(b, p)
    ensures Picks(b, ps + [p], cs + [At(b, p)])
  {
  }

  /** Picking every active position gives the active cubes. */
  lemma PicksAll(b: Board, cs: seq<Cube>)
    requires Rect(b) && Picks(b, ActiveUpTo(b, |b|), cs)
    ensures cs == ActiveCubes(b)
  {
  }

  /** The reset loop of loadBehaviourProfile after columns 0 .. col - 1. */
  ghost predicate ResetUpTo(cur: Board, b0: Board, col: int, beh: Behaviour, maxRow: int, maxCol: int)
  {
    && 0 <= col <= |b0| && Rect(cur) && Rect(b0) && SameShape(cur, b0) && Rows(cur) == Rows(b0)
    && forall q :: InGrid(b0, q) ==>
      At(cur, q) == if q.col < col then ResetCube(At(b0, q), beh, maxRow, maxCol) else At(b0, q)
  }

  /** The row loop of that reset within column col, after rows 0 .. row - 1. */
  ghost predicate ResetRows(cur: Board, b0: Board, col: int, row: int, beh: Behaviour, maxRow: int, maxCol: int)
  {
    && 0 <= col < |b0| && 0 <= row <= Rows(b0) && Rect(cur) && Rect(b0) && SameShape(cur, b0) && Rows(cur) == Rows(b0)
    && forall q :: InGrid(b0, q) ==>
      At(cur, q) == if q.col == col && q.row < row then ResetCube(At(b0, q), beh, maxRow, maxCol) else At(b0, q)
  }

  lemma ResetRowNext(prev: Board, b0: Board, col: int, row: int, beh: Behaviour, maxRow: int, maxCol: int)
    requires ResetRows(prev, b0, col, row, beh, maxRow, maxCol) && row < Rows(b0)
    ensures InGrid(prev, Pos(row, col))
    ensures ResetRows(Put(prev, Pos(row, col), ResetCube(At(prev, Pos(row, col)), beh, maxRow, maxCol)),
                      b0, col, row + 1, beh, maxRow, maxCol)
  {
  }

  lemma ResetRowsDone(cur: Board, b0: Board, col: int, beh: Behaviour, maxRow: int, maxCol: int)
    requires ResetRows(cur, b0, col, Rows(b0), beh, maxRow, maxCol)
    ensures SameShape(cur, b0) && Rows(cur) == Rows(b0)
    ensures forall q :: InGrid(b0, q) ==>
      At(cur, q) == if q.col == col then ResetCube(At(b0, q), beh, maxRow, maxCol) else At(b0, q)
  {
  }

  lemma ResetNext(prev: Board, next: Board, b0: Board, col: int, beh: Behaviour, maxRow: int, maxCol: int)
    requires ResetUpTo(prev, b0, col, beh, maxRow, maxCol) && col < |b0|
    requires Rect(next) && SameShape(next, prev) && Rows(next) == Rows(prev)
    requires forall q :: InGrid(prev, q) ==>
      At(next, q) == if q.col == col then ResetCube(At(prev, q), beh, maxRow, maxCol) else At(prev, q)
    ensures ResetUpTo(next, b0, col + 1, beh, maxRow, maxCol)
  {
  }

  lemma ResetDone(cur: Board, b0: Board, beh: Behaviour, maxRow: int, maxCol: int)
    requires ResetUpTo(cur, b0, |b0|, beh, maxRow, maxCol)
    ensures SameShape(cur, b0) && Rows(cur) == Rows(b0) && |cur| == |b0|
    ensures forall q :: InGrid(b0, q) ==> At(cur, q) == ResetCube(At(b0, q), beh, maxRow, maxCol)
    ensures ActiveCount(cur) == 0
  {
    NoneActive(cur);
  }

  /** What a grid may demand before its behaviour runs one frame. */
  ghost predicate Runnable(sqrt: nat -> real, b: Board, edge: seq<CubeId>, beh: Behaviour, pickDraw: real)
  {
    && Rect(b) && IsSqrt(sqrt)
    && (beh.RandomPropagation? ==>
          beh.p.speed > 0 && beh.p.maxRaiseRadius > 0.0 && PropagationRules.Ready(b, edge) && 0.0 <= pickDraw < 1.0)
  }

  /**
   * doBehaviour: one frame of whichever behaviour the grid has inherited.
   * None is the frame that throws; only RandomPropagation can.
   */
  ghost function Frame(sqrt: nat -> real, sin: real -> real, b: Board, edge: seq<CubeId>, beh: Behaviour,
                       phase: real, spawnDraw: real, pickDraw: real): (r: Option<Board>)
    requires Runnable(sqrt, b, edge, beh, pickDraw)
    ensures r.None? ==> beh.RandomPropagation? && |edge| == 0
  {
    match beh
    case RandomPropagation(p) => PropagationRules.MainBehaviour(sqrt, b, edge, p, spawnDraw, pickDraw)
    case Ripple(r) => Some(RippleRules.RippleFrame(sqrt, sin, b, r, phase))
    case GameOfLife(h) => Some(LifeRules.LifeStep(b, h))
  }

  class OrthoGrid {
    // structure profile
    var x: real
    var y: real
    var maxRow: int
    var maxCol: int
    // cube profile
    var edgeLength: real
    var separation: real
    var viewAngleDeg: real
    // render profile
    var render: RenderProfile
    // the inherited behaviour profile, and the edge cubes of RandomPropagation
    var behaviour: Behaviour
    var edgeCubes: seq<CubeId>
    /** How many times build has run: the generation of the current cube objects. */
    var generation: nat
    /** cubes[col][row] */
    var cubes: Board

    /** The array is rectangular and every cube is the current build's object for its cell. */
    ghost predicate Valid()
      reads this`cubes, this`generation
    {
      Rect(cubes) && forall q :: InGrid(cubes, q) ==> At(cubes, q).id == CubeId(generation, q.row, q.col)
    }

    /** The translation build moves by per row: (edgeLength + separation) * (cos, sin) of the translation angle. */
    function StepX(trig: Trig): real reads this`edgeLength, this`separation
    {
      (edgeLength + separation) * trig.cosTranslation
    }

    function StepY(trig: Trig): real reads this`edgeLength, this`separation
    {
      (edgeLength + separation) * trig.sinTranslation
    }

    /**
     * The cube build places at (row, col): an OrthoCube of this build,
     * inactive and flat, centred at (x + (row - col) * tX, y + (row + col) * tY),
     * with its corners from the view angle, step 0, and under
     * RandomPropagation the vector initCubeProperties gives that cell.
     */
    ghost predicate Placed(c: Cube, row: int, col: int, trig: Trig)
      reads this`generation, this`x, this`y, this`edgeLength, this`separation,
            this`viewAngleDeg, this`behaviour, this`maxRow, this`maxCol
    {
      && c.id == CubeId(generation, row, col)
      && c.center == Point(x + (row - col) as real * StepX(trig), y + (row + col) as real * StepY(trig))
      && c.viewAngleDeg == viewAngleDeg && c.edgeLength == edgeLength
      && c.corners == CubeCorners(edgeLength, trig.sinHalfView, trig.cosHalfView)
      && !c.active && c.raiseHeight == 0.0 && c.step == 0
      && c.vector == if behaviour.RandomPropagation? then
                       PropagationRules.EdgeVector(maxRow, maxCol, behaviour.p.speed, row, col)
                     else None
    }

    /**
     * The constructor: load the three profiles, inherit the behaviour
     * (whose edgeCubes list starts empty), then build.
     */
    constructor(structure: StructureProfile, cube: CubeProfile, render: RenderProfile, behaviour: Behaviour, trig: Trig)
      ensures Valid() && generation == 1
      ensures x == structure.x && y == structure.y && maxRow == structure.maxRow && maxCol == structure.maxCol
      ensures edgeLength == cube.edgeLength && separation == cube.separation && viewAngleDeg == cube.viewAngleDeg
      ensures this.render == render && this.behaviour == behaviour
      ensures |cubes| == Count(maxCol) && forall c :: 0 <= c < |cubes| ==> |cubes[c]| == Count(maxRow)
      ensures forall q :: InGrid(cubes, q) ==> Placed(At(cubes, q), q.row, q.col, trig)
      ensures edgeCubes == if behaviour.RandomPropagation? then
        PropagationRules.ScanEdges(1, maxRow, maxCol, Count(maxCol), Count(maxRow)) else []
    {
      x, y, maxRow, maxCol := structure.x, structure.y, structure.maxRow, structure.maxCol;
      edgeLength, separation, viewAngleDeg := cube.edgeLength, cube.separation, cube.viewAngleDeg;
      this.render := render;
      this.behaviour := behaviour;
      edgeCubes := [];
      generation := 0;
      cubes := [];
      new;
      Build(trig);
    }

    /**
     * setActive(row, col, active): indexing outside the array throws, which
     * is `ok == false` with nothing changed.
     */
    method SetActive(row: int, col: int, value: Option<bool>) returns (ok: bool)
      requires Rect(cubes)
      modifies this`cubes
      ensures ok <==> InGrid(old(cubes), Pos(row, col))
      ensures ok ==> cubes == Activate(old(cubes), Pos(row, col), value)
      ensures !ok ==> cubes == old(cubes)
    {
      if !(0 <= col < |cubes| && 0 <= row < |cubes[col]|) {
        return false;
      }
      var c := cubes[col][row];
      cubes := cubes[col := cubes[col][row := c.(active := if value.Some? then value.value else !c.active)]];
      ok := true;
    }

    /** getAllActive: the active cubes in column-outer, row-inner order. */
    method GetAllActive() returns (activeCubes: seq<Cube>)
      requires Rect(cubes)
      ensures activeCubes == ActiveCubes(cubes)
    {
      activeCubes := [];
      var col := 0;
      while col < |cubes|
        invariant 0 <= col <= |cubes|
        invariant Picks(cubes, ActiveUpTo(cubes, col), activeCubes)
      {
        ghost var done := ActiveUpTo(cubes, col);
        var row := 0;
        while row < |cubes[0]|
          invariant 0 <= row <= Rows(cubes)
          invariant Picks(cubes, done + ActiveInColumn(cubes, col, row), activeCubes)
        {
          var activeCube := cubes[col][row];
          if activeCube.active {
            assert ActiveInColumn(cubes, col, row + 1) == ActiveInColumn(cubes, col, row) + [Pos(row, col)];
            PickNext(cubes, done + ActiveInColumn(cubes, col, row), activeCubes, Pos(row, col));
            AppendAssoc(done, ActiveInColumn(cubes, col, row), [Pos(row, col)]);
            activeCubes := activeCubes + [activeCube];
          } else {
            assert ActiveInColumn(cubes, col, row + 1) == ActiveInColumn(cubes, col, row);
          }
          row := row + 1;
        }
        col := col + 1;
      }
      PicksAll(cubes, activeCubes);
    }

    /**
     * initCubeProperties on one cube. Under RandomPropagation the cube gets
     * step 0 and, on a non-corner boundary cell, its vector, and is appended
     * to edgeCubes; the other behaviours leave it as it is.
     */
    method InitCubeProperties(cube: Cube) returns (c: Cube)
      modifies this`edgeCubes
      ensures behaviour.RandomPropagation? ==>
        c == PropagationRules.InitCube(cube, maxRow, maxCol, behaviour.p.speed)
        && edgeCubes == old(edgeCubes) +
             if PropagationRules.IsEdgeCell(maxRow, maxCol, cube.id.row, cube.id.col) then [cube.id] else []
      ensures !behaviour.RandomPropagation? ==> c == cube && edgeCubes == old(edgeCubes)
    {
      c := cube;
      if behaviour.RandomPropagation? {
        var speed := behaviour.p.speed;
        c := c.(step := 0);
        if !(c.id.row == 0 && c.id.col == 0)
          && !(c.id.row == 0 && c.id.col == maxCol - 1)
          && !(c.id.row == maxRow - 1 && c.id.col == 0)
          && !(c.id.row == maxRow - 1 && c.id.col == maxCol - 1)
        {
          if c.id.row == 0 {
            c := c.(vector := Some(Vec(speed, 0)));
            edgeCubes := edgeCubes + [c.id];
          } else if c.id.row == maxRow - 1 {
            c := c.(vector := Some(Vec(-speed, 0)));
            edgeCubes := edgeCubes + [c.id];
          } else if c.id.col == 0 {
            c := c.(vector := Some(Vec(0, speed)));
            edgeCubes := edgeCubes + [c.id];
          } else if c.id.col == maxCol - 1 {
            c := c.(vector := Some(Vec(0, -speed)));
            edgeCubes := edgeCubes + [c.id];
          }
        }
      }
    }

    /**
     * build: a fresh array of maxCol columns of maxRow new cubes, each
     * placed as `Placed` says; under RandomPropagation the new edge cubes
     * are appended to edgeCubes in scan order, 2 * (maxRow + maxCol) - 8 of them.
     */
    method Build(trig: Trig)
      modifies this`cubes, this`edgeCubes, this`generation
      ensures generation == old(generation) + 1
      ensures Valid()
      ensures |cubes| == Count(maxCol) && forall c :: 0 <= c < |cubes| ==> |cubes[c]| == Count(maxRow)
      ensures forall q :: InGrid(cubes, q) ==> Placed(At(cubes, q), q.row, q.col, trig)
      ensures behaviour.RandomPropagation? ==>
        edgeCubes == old(edgeCubes) + PropagationRules.ScanEdges(generation, maxRow, maxCol, Count(maxCol), Count(maxRow))
      ensures behaviour.RandomPropagation? && maxRow >= 2 && maxCol >= 2 ==>
        |edgeCubes| == |old(edgeCubes)| + 2 * (maxRow + maxCol) - 8
      ensures !behaviour.RandomPropagation? ==> edgeCubes == old(edgeCubes)
    {
      generation := generation + 1;
      var built: seq<seq<Cube>> := [];
      var cx := x;
      var cy := y;
      var translationX := (edgeLength + separation) * trig.cosTranslation;
      var translationY := (edgeLength + separation) * trig.sinTranslation;
      ghost var rows := Count(maxRow);
      ghost var edge0 := edgeCubes;
      ghost var prop := behaviour.RandomPropagation?;
      var col := 0;
      while col < maxCol
        invariant 0 <= col <= Count(maxCol) && generation == old(generation) + 1
        invariant |built| == col
        invariant forall c :: 0 <= c < col ==> |built[c]| == rows
        invariant forall c, r :: 0 <= c < col && 0 <= r < rows ==> Placed(built[c][r], r, c, trig)
        invariant cx == x - col as real * translationX && cy == y + col as real * translationY
        invariant edgeCubes == edge0 + if prop then PropagationRules.ScanEdges(generation, maxRow, maxCol, col, rows) else []
      {
        var rowArray := BuildColumn(col, cx, cy, trig);
        ScanEdgesNext(edge0, prop, generation, maxRow, maxCol, col, rows);
        built := built + [rowArray];
        cx := cx - translationX;
        cy := cy + translationY;
        col := col + 1;
        ScaleStep(col - 1, translationX);
        ScaleStep(col - 1, translationY);
      }
      assert col == Count(maxCol);
      cubes := built;
      assert Rect(cubes);
      if prop && maxRow >= 2 && maxCol >= 2 {
        PropagationRules.EdgeCubeCount(generation, maxRow, maxCol);
      }
    }

    /** One column of build: maxRow new cubes, the running x and y moved by one step per row. */
    method BuildColumn(col: int, cx: real, cy: real, trig: Trig) returns (rowArray: seq<Cube>)
      requires cx == x - col as real * StepX(trig) && cy == y + col as real * StepY(trig)
      modifies this`edgeCubes
      ensures |rowArray| == Count(maxRow)
      ensures forall r :: 0 <= r < |rowArray| ==> Placed(rowArray[r], r, col, trig)
      ensures edgeCubes == old(edgeCubes) +
        if behaviour.RandomPropagation? then PropagationRules.ColumnEdges(generation, maxRow, maxCol, col, Count(maxRow)) else []
    {
      var translationX := (edgeLength + separation) * trig.cosTranslation;
      var translationY := (edgeLength + separation) * trig.sinTranslation;
      rowArray := [];
      var row := 0;
      while row < maxRow
        invariant 0 <= row <= Count(maxRow)
        invariant |rowArray| == row
        invariant forall r :: 0 <= r < row ==> Placed(rowArray[r], r, col, trig)
        invariant edgeCubes == old(edgeCubes) +
          if behaviour.RandomPropagation? then PropagationRules.ColumnEdges(generation, maxRow, maxCol, col, row) else []
      {
        CentreStepX(x, cx, translationX, row, col);
        CentreStepY(y, cy, translationY, row, col);
        var newCube := BuildOne(row, col, cx + row as real * translationX, cy + row as real * translationY, trig);
        ColumnEdgesNext(old(edgeCubes), behaviour.RandomPropagation?, generation, maxRow, maxCol, col, row);
        rowArray := rowArray + [newCube];
        row := row + 1;
      }
    }

    /** The cube build makes at (row, col), centred at (newX, newY). */
    method BuildOne(row: int, col: int, newX: real, newY: real, trig: Trig) returns (newCube: Cube)
      requires newX == x + (row - col) as real * StepX(trig) && newY == y + (row + col) as real * StepY(trig)
      modifies this`edgeCubes
      ensures Placed(newCube, row, col, trig)
      ensures edgeCubes == old(edgeCubes) +
        if behaviour.RandomPropagation? && PropagationRules.IsEdgeCell(maxRow, maxCol, row, col)
        then [CubeId(generation, row, col)] else []
    {
      ghost var sx, sy := StepX(trig), StepY(trig);
      var made := NewCube(CubeId(generation, row, col), Point(newX, newY), viewAngleDeg, edgeLength, trig);
      newCube := InitCubeProperties(made);
      assert newCube.center == made.center && sx == StepX(trig) && sy == StepY(trig);
    }

    /** loadStructureProfile: position and size, then an optional rebuild. */
    method LoadStructureProfile(structure: StructureProfile, rebuild: bool, trig: Trig)
      requires Valid()
      modifies this`x, this`y, this`maxRow, this`maxCol, this`cubes, this`edgeCubes, this`generation
      ensures x == structure.x && y == structure.y && maxRow == structure.maxRow && maxCol == structure.maxCol
      ensures Valid()
      ensures !rebuild ==> cubes == old(cubes) && edgeCubes == old(edgeCubes) && generation == old(generation)
      ensures rebuild ==> generation == old(generation) + 1 && |cubes| == Count(maxCol)
      ensures rebuild ==> forall c :: 0 <= c < |cubes| ==> |cubes[c]| == Count(maxRow)
      ensures rebuild ==> forall q :: InGrid(cubes, q) ==> Placed(At(cubes, q), q.row, q.col, trig)
      ensures rebuild && behaviour.RandomPropagation? ==>
        edgeCubes == old(edgeCubes) + PropagationRules.ScanEdges(generation, maxRow, maxCol, Count(maxCol), Count(maxRow))
      ensures rebuild && behaviour.RandomPropagation? && maxRow >= 2 && maxCol >= 2 ==>
        |edgeCubes| == |old(edgeCubes)| + 2 * (maxRow + maxCol) - 8
      ensures rebuild && !behaviour.RandomPropagation? ==> edgeCubes == old(edgeCubes)
    {
      x, y, maxRow, maxCol := structure.x, structure.y, structure.maxRow, structure.maxCol;
      if rebuild {
        Build(trig);
      }
    }

    /** loadCubeProfile: edge length, separation and view angle, then an optional rebuild. */
    method LoadCubeProfile(cube: CubeProfile, rebuild: bool, trig: Trig)
      requires Valid()
      modifies this`edgeLength, this`separation, this`viewAngleDeg, this`cubes, this`edgeCubes, this`generation
      ensures edgeLength == cube.edgeLength && separation == cube.separation && viewAngleDeg == cube.viewAngleDeg
      ensures Valid()
      ensures !rebuild ==> cubes == old(cubes) && edgeCubes == old(edgeCubes) && generation == old(generation)
      ensures rebuild ==> generation == old(generation) + 1 && |cubes| == Count(maxCol)
      ensures rebuild ==> forall c :: 0 <= c < |cubes| ==> |cubes[c]| == Count(maxRow)
      ensures rebuild ==> forall q :: InGrid(cubes, q) ==> Placed(At(cubes, q), q.row, q.col, trig)
      ensures rebuild && behaviour.RandomPropagation? ==>
        edgeCubes == old(edgeCubes) + PropagationRules.ScanEdges(generation, maxRow, maxCol, Count(maxCol), Count(maxRow))
      ensures rebuild && behaviour.RandomPropagation? && maxRow >= 2 && maxCol >= 2 ==>
        |edgeCubes| == |old(edgeCubes)| + 2 * (maxRow + maxCol) - 8
      ensures rebuild && !behaviour.RandomPropagation? ==> edgeCubes == old(edgeCubes)
    {
      edgeLength, separation, viewAngleDeg := cube.edgeLength, cube.separation, cube.viewAngleDeg;
      if rebuild {
        Build(trig);
      }
    }

    /** loadRenderProfile: drawing style and colours, then an optional rebuild. */
    method LoadRenderProfile(render: RenderProfile, rebuild: bool, trig: Trig)
      requires Valid()
      modifies this`render, this`cubes, this`edgeCubes, this`generation
      ensures this.render == render
      ensures Valid()
      ensures !rebuild ==> cubes == old(cubes) && edgeCubes == old(edgeCubes) && generation == old(generation)
      ensures rebuild ==> generation == old(generation) + 1 && |cubes| == Count(maxCol)
      ensures rebuild ==> forall c :: 0 <= c < |cubes| ==> |cubes[c]| == Count(maxRow)
      ensures rebuild ==> forall q :: InGrid(cubes, q) ==> Placed(At(cubes, q), q.row, q.col, trig)
      ensures rebuild && behaviour.RandomPropagation? ==>
        edgeCubes == old(edgeCubes) + PropagationRules.ScanEdges(generation, maxRow, maxCol, Count(maxCol), Count(maxRow))
      ensures rebuild && behaviour.RandomPropagation? && maxRow >= 2 && maxCol >= 2 ==>
        |edgeCubes| == |old(edgeCubes)| + 2 * (maxRow + maxCol) - 8
      ensures rebuild && !behaviour.RandomPropagation? ==> edgeCubes == old(edgeCubes)
    {
      this.render := render;
      if rebuild {
        Build(trig);
      }
    }

    /**
     * loadBehaviourProfile: inherit the new behaviour, then clear every
     * cube's flag and run the new behaviour's initCubeProperties on it, in
     * the same array; heights are left as they were. edgeCubes keeps its
     * old entries. An optional rebuild follows.
     */
    method LoadBehaviourProfile(b: Behaviour, rebuild: bool, trig: Trig)
      requires Valid()
      modifies this`behaviour, this`cubes, this`edgeCubes, this`generation
      ensures behaviour == b
      ensures Valid()
      ensures !rebuild ==> generation == old(generation) && SameShape(cubes, old(cubes)) && Rows(cubes) == Rows(old(cubes))
      ensures !rebuild ==> forall q :: InGrid(old(cubes), q) ==>
        At(cubes, q) == ResetCube(At(old(cubes), q), b, maxRow, maxCol)
      ensures !rebuild ==> ActiveCount(cubes) == 0
      ensures !rebuild && b.RandomPropagation? ==>
        edgeCubes == old(edgeCubes) + PropagationRules.ScanEdges(generation, maxRow, maxCol, |cubes|, Rows(cubes))
      ensures !rebuild && !b.RandomPropagation? ==> edgeCubes == old(edgeCubes)
      ensures rebuild ==> generation == old(generation) + 1 && |cubes| == Count(maxCol)
      ensures rebuild ==> forall c :: 0 <= c < |cubes| ==> |cubes[c]| == Count(maxRow)
      ensures rebuild ==> forall q :: InGrid(cubes, q) ==> Placed(At(cubes, q), q.row, q.col, trig)
      ensures rebuild && b.RandomPropagation? ==>
        edgeCubes == old(edgeCubes)
          + PropagationRules.ScanEdges(old(generation), maxRow, maxCol, |old(cubes)|, Rows(old(cubes)))
          + PropagationRules.ScanEdges(generation, maxRow, maxCol, Count(maxCol), Count(maxRow))
      ensures rebuild && !b.RandomPropagation? ==> edgeCubes == old(edgeCubes)
    {
      behaviour := b;
      ResetAll();
      if rebuild {
        Build(trig);
      }
    }

    /** The reset loop of loadBehaviourProfile: every cube inactive and re-initialised for the current behaviour. */
    method ResetAll()
      requires Valid()
      modifies this`cubes, this`edgeCubes
      ensures Valid() && SameShape(cubes, old(cubes)) && Rows(cubes) == Rows(old(cubes))
      ensures forall q :: InGrid(old(cubes), q) ==>
        At(cubes, q) == ResetCube(At(old(cubes), q), behaviour, maxRow, maxCol)
      ensures ActiveCount(cubes) == 0
      ensures edgeCubes == old(edgeCubes) + if behaviour.RandomPropagation? then
        PropagationRules.ScanEdges(generation, maxRow, maxCol, |cubes|, Rows(cubes)) else []
    {
      ghost var b0 := cubes;
      ghost var e0 := edgeCubes;
      var col := 0;
      while col < |cubes|
        invariant Valid() && ResetUpTo(cubes, b0, col, behaviour, maxRow, maxCol)
        invariant edgeCubes == e0 + if behaviour.RandomPropagation? then
          PropagationRules.ScanEdges(generation, maxRow, maxCol, col, Rows(b0)) else []
      {
        ghost var prev := cubes;
        ResetColumn(col);
        ResetNext(prev, cubes, b0, col, behaviour, maxRow, maxCol);
        ScanEdgesNext(e0, behaviour.RandomPropagation?, generation, maxRow, maxCol, col, Rows(b0));
        col := col + 1;
      }
      ResetDone(cubes, b0, behaviour, maxRow, maxCol);
      assert col == |cubes| && Rows(cubes) == Rows(b0);
    }

    method ResetColumn(col: int)
      requires Valid() && 0 <= col < |cubes|
      modifies this`cubes, this`edgeCubes
      ensures Valid() && SameShape(cubes, old(cubes)) && Rows(cubes) == Rows(old(cubes))
      ensures forall q :: InGrid(old(cubes), q) ==>
        At(cubes, q) == if q.col == col then ResetCube(At(old(cubes), q), behaviour, maxRow, maxCol) else At(old(cubes), q)
      ensures edgeCubes == old(edgeCubes) + if behaviour.RandomPropagation? then
        PropagationRules.ColumnEdges(generation, maxRow, maxCol, col, Rows(cubes)) else []
    {
      var row := 0;
      while row < |cubes[0]|
        invariant Valid() && ResetRows(cubes, old(cubes), col, row, behaviour, maxRow, maxCol)
        invariant edgeCubes == old(edgeCubes) + if behaviour.RandomPropagation? then
          PropagationRules.ColumnEdges(generation, maxRow, maxCol, col, row) else []
      {
        ResetStep(row, col, old(cubes), old(edgeCubes));
        row := row + 1;
      }
      ResetRowsDone(cubes, old(cubes), col, behaviour, maxRow, maxCol);
      assert row == Rows(cubes);
    }

    /** The row loop of ResetColumn, one row further. */
    method ResetStep(row: int, col: int, ghost b0: Board, ghost e0: seq<CubeId>)
      requires Valid() && ResetRows(cubes, b0, col, row, behaviour, maxRow, maxCol) && row < Rows(b0)
      requires edgeCubes == e0 + if behaviour.RandomPropagation? then
        PropagationRules.ColumnEdges(generation, maxRow, maxCol, col, row) else []
      modifies this`cubes, this`edgeCubes
      ensures Valid() && ResetRows(cubes, b0, col, row + 1, behaviour, maxRow, maxCol)
      ensures edgeCubes == e0 + if behaviour.RandomPropagation? then
        PropagationRules.ColumnEdges(generation, maxRow, maxCol, col, row + 1) else []
    {
      ResetRowNext(cubes, b0, col, row, behaviour, maxRow, maxCol);
      ResetOne(row, col);
      ColumnEdgesNext(e0, behaviour.RandomPropagation?, generation, maxRow, maxCol, col, row);
    }

    /** One iteration of that loop: setActive(row, col, false), then initCubeProperties. */
    method ResetOne(row: int, col: int)
      requires Valid() && InGrid(cubes, Pos(row, col))
      modifies this`cubes, this`edgeCubes
      ensures Valid()
      ensures cubes == Put(old(cubes), Pos(row, col), ResetCube(At(old(cubes), Pos(row, col)), behaviour, maxRow, maxCol))
      ensures edgeCubes == old(edgeCubes) +
        if behaviour.RandomPropagation? && PropagationRules.IsEdgeCell(maxRow, maxCol, row, col)
        then [CubeId(generation, row, col)] else []
    {
      var _ := SetActive(row, col, Some(false));
      var cube := InitCubeProperties(cubes[col][row]);
      ghost var cleared := cubes;
      cubes := cubes[col := cubes[col][row := cube]];
      assert cube == ResetCube(At(old(cubes), Pos(row, col)), behaviour, maxRow, maxCol);
      assert cubes == Put(cleared, Pos(row, col), cube);
      SameBoard(cubes, Put(old(cubes), Pos(row, col), cube));
    }

    /** doBehaviour: runs the mainBehaviour of the inherited behaviour; false when it throws. */
    method DoBehaviour(sqrt: nat -> real, sin: real -> real, phase: real, spawnDraw: real, pickDraw: real) returns (ok: bool)
      requires Valid() && Runnable(sqrt, cubes, edgeCubes, behaviour, pickDraw)
      modifies this`cubes
      ensures Valid()
      ensures ok <==> Frame(sqrt, sin, old(cubes), edgeCubes, behaviour, phase, spawnDraw, pickDraw).Some?
      ensures ok ==> cubes == Frame(sqrt, sin, old(cubes), edgeCubes, behaviour, phase, spawnDraw, pickDraw).value
    {
      match behaviour
      case RandomPropagation(_) =>
        ok := PropagationMainBehaviour(sqrt, spawnDraw, pickDraw);
      case Ripple(_) =>
        RippleMainBehaviour(sqrt, sin, phase);
        ok := true;
      case GameOfLife(_) =>
        LifeMainBehaviour();
        ok := true;
    }

    // -------------------------------------------------------------------
    // RandomPropagation
    // -------------------------------------------------------------------

    /**
     * The loop of _propagateActive: each cube of the getAllActive snapshot,
     * read live when its turn comes, moves one step along its vector.
     */
    method MoveActive()
      requires Valid() && behaviour.RandomPropagation? && behaviour.p.speed > 0
      requires PropagationRules.Ready(cubes, edgeCubes)
      modifies this`cubes
      ensures Valid()
      ensures cubes == PropagationRules.MoveAll(old(cubes), edgeCubes, behaviour.p)
    {
      var activeCubes := GetAllActive();
      SnapshotPositions(cubes, generation);
      AdvanceEach(activeCubes, ActivePositions(cubes));
    }

    /** The `for (activeCube of activeCubes)` loop of _propagateActive over the snapshot at positions `ps`. */
    method AdvanceEach(activeCubes: seq<Cube>, ghost ps: seq<Pos>)
      requires Rect(cubes) && behaviour.RandomPropagation? && PropagationRules.Carrying(cubes, ps)
      requires |activeCubes| == |ps|
      requires forall i :: 0 <= i < |ps| ==> Pos(activeCubes[i].id.row, activeCubes[i].id.col) == ps[i]
      modifies this`cubes
      ensures Rect(cubes)
      ensures cubes == PropagationRules.AdvanceAll(old(cubes), ps, edgeCubes, behaviour.p.rebound, behaviour.p.speed)
    {
      var s := behaviour.p;
      var i := 0;
      while i < |activeCubes|
        invariant MovesLeft(cubes, old(cubes), ps, i, edgeCubes, s.rebound, s.speed)
      {
        var activeCube := activeCubes[i];
        AdvanceNext(cubes, old(cubes), ps, i, edgeCubes, s.rebound, s.speed);
        AdvanceOne(activeCube.id.row, activeCube.id.col);
        i := i + 1;
      }
      AdvanceDone(cubes, old(cubes), ps, edgeCubes, s.rebound, s.speed);
    }

    /**
     * One iteration of the loop of _propagateActive, for the snapshot cube
     * whose grid position is (row, col).
     */
    method AdvanceOne(row: int, col: int)
      requires Rect(cubes) && behaviour.RandomPropagation?
      requires InGrid(cubes, Pos(row, col)) && At(cubes, Pos(row, col)).vector.Some?
      modifies this`cubes
      ensures cubes == PropagationRules.Advance(old(cubes), Pos(row, col), edgeCubes, behaviour.p.rebound, behaviour.p.speed)
    {
      var s := behaviour.p;
      var live := cubes[col][row];
      var nextRow := row + live.vector.value.dRow;
      var nextCol := col + live.vector.value.dCol;
      if nextRow >= 0 && nextRow < |cubes[0]| && nextCol >= 0 && nextCol < |cubes| {
        var nextCube := cubes[nextCol][nextRow].(step := live.step + s.speed);
        if s.rebound {
          nextCube := nextCube.(active := true);
          if nextCube.id !in edgeCubes {
            nextCube := nextCube.(vector := live.vector);
          }
        } else if nextCube.id !in edgeCubes {
          nextCube := nextCube.(active := true, vector := live.vector);
        }
        cubes := cubes[nextCol := cubes[nextCol][nextRow := nextCube]];
      }
      var done := cubes[col][row].(active := false, step := 0);
      if done.id !in edgeCubes {
        done := done.(vector := None);
      }
      cubes := cubes[col := cubes[col][row := done]];
    }

    /** The innermost loop of _raiseAdjacentCubes: count and sum the sources in reach of `cube`. */
    method RaiseTally(sqrt: nat -> real, cube: Cube, activeCubes: seq<Cube>) returns (count: nat, newRaiseHeight: real)
      requires IsSqrt(sqrt) && behaviour.RandomPropagation?
      requires PropagationRules.ReachDefined(activeCubes, behaviour.p.maxRaiseRadius)
      ensures Tally(count, newRaiseHeight)
        == PropagationRules.Influence(sqrt, PosOf(cube), activeCubes, behaviour.p.maxRaiseRadius, behaviour.p.maxRaiseHeight)
    {
      var radius, height := behaviour.p.maxRaiseRadius, behaviour.p.maxRaiseHeight;
      count, newRaiseHeight := 0, 0.0;
      var k := 0;
      while k < |activeCubes|
        invariant 0 <= k <= |activeCubes|
        invariant Tally(count, newRaiseHeight)
          == PropagationRules.Influence(sqrt, PosOf(cube), activeCubes[..k], radius, height)
      {
        var activeCube := activeCubes[k];
        var maximumRange := if (activeCube.step as real) < radius then activeCube.step as real else radius;
        assert maximumRange == PropagationRules.Reach(activeCube.step, radius) != 0.0;
        var range := CubeDistance(sqrt, PosOf(cube), PosOf(activeCube));
        ghost var t := Tally(count, newRaiseHeight);
        if range <= maximumRange {
          newRaiseHeight := newRaiseHeight + PropagationRules.Share(maximumRange, range, height);
          count := count + 1;
        }
        assert activeCubes[..k + 1][..k] == activeCubes[..k] && activeCubes[..k + 1][k] == activeCube;
        assert PropagationRules.ReachDefined(activeCubes[..k + 1], radius);
        k := k + 1;
      }
      assert activeCubes[..k] == activeCubes;
    }

    /** The middle loop of _raiseAdjacentCubes over column `col`. */
    method RaiseColumn(sqrt: nat -> real, col: int, activeCubes: seq<Cube>)
      requires IsSqrt(sqrt) && behaviour.RandomPropagation? && Rect(cubes) && 0 <= col < |cubes|
      requires PropagationRules.ReachDefined(activeCubes, behaviour.p.maxRaiseRadius)
      modifies this`cubes
      ensures Rect(cubes) && SameShape(cubes, old(cubes)) && Rows(cubes) == Rows(old(cubes))
      ensures forall q :: InGrid(old(cubes), q) ==>
        At(cubes, q) == (if q.col == col then
                           PropagationRules.RaiseCube(sqrt, At(old(cubes), q), activeCubes, behaviour.p.maxRaiseRadius, behaviour.p.maxRaiseHeight)
                         else At(old(cubes), q))
    {
      var row := 0;
      while row < |cubes[0]|
        invariant 0 <= row <= Rows(cubes)
        invariant Rect(cubes) && SameShape(cubes, old(cubes)) && Rows(cubes) == Rows(old(cubes))
        invariant forall q :: InGrid(old(cubes), q) ==>
          At(cubes, q) == (if q.col == col && q.row < row then
                             PropagationRules.RaiseCube(sqrt, At(old(cubes), q), activeCubes, behaviour.p.maxRaiseRadius, behaviour.p.maxRaiseHeight)
                           else At(old(cubes), q))
      {
        var cube := cubes[col][row];
        var count, newRaiseHeight := RaiseTally(sqrt, cube, activeCubes);
        cube := cube.(raiseHeight := if count > 0 then newRaiseHeight else cube.raiseHeight * Decay);
        cubes := cubes[col := cubes[col][row := cube]];
        row := row + 1;
      }
    }

    /**
     * _raiseAdjacentCubes: every cube's height becomes the summed
     * contributions of the active cubes in reach, or decays by 0.85.
     */
    method RaiseAdjacentCubes(sqrt: nat -> real)
      requires Valid() && IsSqrt(sqrt) && behaviour.RandomPropagation?
      requires PropagationRules.ReachDefined(ActiveCubes(cubes), behaviour.p.maxRaiseRadius)
      modifies this`cubes
      ensures Valid()
      ensures cubes == PropagationRules.RaiseAll(sqrt, old(cubes), ActiveCubes(old(cubes)),
                                                 behaviour.p.maxRaiseRadius, behaviour.p.maxRaiseHeight)
    {
      var activeCubes := GetAllActive();
      ghost var b0 := cubes;
      ghost var radius, height := behaviour.p.maxRaiseRadius, behaviour.p.maxRaiseHeight;
      var col := 0;
      while col < |cubes|
        invariant 0 <= col <= |b0|
        invariant Rect(cubes) && SameShape(cubes, b0) && Rows(cubes) == Rows(b0)
        invariant forall q :: InGrid(b0, q) ==>
          At(cubes, q) == (if q.col < col then PropagationRules.RaiseCube(sqrt, At(b0, q), activeCubes, radius, height) else At(b0, q))
      {
        RaiseColumn(sqrt, col, activeCubes);
        col := col + 1;
      }
      SameBoard(cubes, PropagationRules.RaiseAll(sqrt, b0, activeCubes, radius, height));
    }

    /** _propagateActive: the move loop, then the raise pass. */
    method PropagateActive(sqrt: nat -> real)
      requires Valid() && IsSqrt(sqrt) && behaviour.RandomPropagation?
      requires behaviour.p.speed > 0 && behaviour.p.maxRaiseRadius > 0.0
      requires PropagationRules.Ready(cubes, edgeCubes)
      modifies this`cubes
      ensures Valid() && PropagationRules.Ready(cubes, edgeCubes)
      ensures cubes == PropagationRules.PropagateActive(sqrt, old(cubes), edgeCubes, behaviour.p)
    {
      MoveActive();
      PropagationRules.SnapshotReach(cubes, behaviour.p.speed, behaviour.p.maxRaiseRadius);
      RaiseAdjacentCubes(sqrt);
    }

    /**
     * setRandomActive of RandomPropagation: the edgeCubes entry at
     * floor(draw * length) becomes active with step 0. With no entries the
     * entry is undefined and the call throws (`ok == false`).
     */
    method PropagationSetRandomActive(pickDraw: real) returns (ok: bool)
      requires Valid() && 0.0 <= pickDraw < 1.0
      modifies this`cubes
      ensures Valid()
      ensures ok <==> |edgeCubes| > 0
      ensures ok ==> cubes == PropagationRules.SpawnAt(old(cubes), edgeCubes[PropagationRules.PickIndex(pickDraw, |edgeCubes|)])
      ensures !ok ==> cubes == old(cubes)
    {
      if |edgeCubes| == 0 {
        return false;
      }
      var edgeCube := edgeCubes[PropagationRules.PickIndex(pickDraw, |edgeCubes|)];
      var row, col := edgeCube.row, edgeCube.col;
      if 0 <= col < |cubes| && 0 <= row < |cubes[col]| && cubes[col][row].id == edgeCube {
        cubes := cubes[col := cubes[col][row := cubes[col][row].(active := true, step := 0)]];
      }
      ok := true;
    }

    /**
     * mainBehaviour of RandomPropagation: propagate, then without rebound
     * and below `limit` active cubes, spawn when the draw exceeds 1 - chance.
     * A spawn with no edge cubes throws after the propagation (`ok == false`).
     */
    method PropagationMainBehaviour(sqrt: nat -> real, spawnDraw: real, pickDraw: real) returns (ok: bool)
      requires Valid() && IsSqrt(sqrt) && behaviour.RandomPropagation?
      requires behaviour.p.speed > 0 && behaviour.p.maxRaiseRadius > 0.0
      requires PropagationRules.Ready(cubes, edgeCubes) && 0.0 <= pickDraw < 1.0
      modifies this`cubes
      ensures Valid()
      ensures ok <==> PropagationRules.MainBehaviour(sqrt, old(cubes), edgeCubes, behaviour.p, spawnDraw, pickDraw).Some?
      ensures ok ==> cubes == PropagationRules.MainBehaviour(sqrt, old(cubes), edgeCubes, behaviour.p, spawnDraw, pickDraw).value
      ensures !ok ==> cubes == PropagationRules.PropagateActive(sqrt, old(cubes), edgeCubes, behaviour.p)
    {
      ghost var frame := PropagationRules.MainBehaviour(sqrt, cubes, edgeCubes, behaviour.p, spawnDraw, pickDraw);
      PropagateActive(sqrt);
      ghost var moved := cubes;
      assert frame == if !behaviour.p.rebound && ActiveCount(moved) < behaviour.p.limit && spawnDraw > 1.0 - behaviour.p.chance then
        (if |edgeCubes| == 0 then None
         else Some(PropagationRules.SpawnAt(moved, edgeCubes[PropagationRules.PickIndex(pickDraw, |edgeCubes|)])))
      else Some(moved);
      ok := true;
      if !behaviour.p.rebound {
        var activeCubes := GetAllActive();
        if |activeCubes| < behaviour.p.limit {
          if spawnDraw > 1.0 - behaviour.p.chance {
            ok := PropagationSetRandomActive(pickDraw);
          }
        }
      }
    }

    // -------------------------------------------------------------------
    // Ripple
    // -------------------------------------------------------------------

    /** The innermost loop of Ripple.mainBehaviour: count and sum the wave terms of the sources within radius. */
    method RippleTally(sqrt: nat -> real, sin: real -> real, phase: real, cube: Cube, activeCubes: seq<Cube>)
      returns (count: nat, newRaiseHeight: real)
      requires IsSqrt(sqrt) && behaviour.Ripple?
      ensures Tally(count, newRaiseHeight) == RippleRules.RippleInfluence(sqrt, sin, PosOf(cube), activeCubes, behaviour.r, phase)
    {
      var s := behaviour.r;
      count, newRaiseHeight := 0, 0.0;
      var k := 0;
      while k < |activeCubes|
        invariant 0 <= k <= |activeCubes|
        invariant Tally(count, newRaiseHeight) == RippleRules.RippleInfluence(sqrt, sin, PosOf(cube), activeCubes[..k], s, phase)
      {
        var activeCube := activeCubes[k];
        var range := CubeDistance(sqrt, PosOf(cube), PosOf(activeCube));
        if range <= s.radius {
          newRaiseHeight := newRaiseHeight + RippleRules.Wave(sin, s.amplitude, range, phase);
          count := count + 1;
        }
        assert activeCubes[..k + 1][..k] == activeCubes[..k] && activeCubes[..k + 1][k] == activeCube;
        k := k + 1;
      }
      assert activeCubes[..k] == activeCubes;
    }

    /** The middle loop of Ripple.mainBehaviour over column `col`. */
    method RippleColumn(sqrt: nat -> real, sin: real -> real, phase: real, col: int, activeCubes: seq<Cube>)
      requires IsSqrt(sqrt) && behaviour.Ripple? && Rect(cubes) && 0 <= col < |cubes|
      modifies this`cubes
      ensures Rect(cubes) && SameShape(cubes, old(cubes)) && Rows(cubes) == Rows(old(cubes))
      ensures forall q :: InGrid(old(cubes), q) ==>
        At(cubes, q) == (if q.col == col then RippleRules.RippleCube(sqrt, sin, At(old(cubes), q), activeCubes, behaviour.r, phase)
                         else At(old(cubes), q))
    {
      var row := 0;
      while row < |cubes[0]|
        invariant 0 <= row <= Rows(cubes)
        invariant Rect(cubes) && SameShape(cubes, old(cubes)) && Rows(cubes) == Rows(old(cubes))
        invariant forall q :: InGrid(old(cubes), q) ==>
          At(cubes, q) == (if q.col == col && q.row < row then RippleRules.RippleCube(sqrt, sin, At(old(cubes), q), activeCubes, behaviour.r, phase)
                           else At(old(cubes), q))
      {
        var cube := cubes[col][row];
        var count, newRaiseHeight := RippleTally(sqrt, sin, phase, cube, activeCubes);
        cube := cube.(raiseHeight := if count > 0 then newRaiseHeight else cube.raiseHeight * Decay);
        cubes := cubes[col := cubes[col][row := cube]];
        row := row + 1;
      }
    }

    /**
     * Ripple.mainBehaviour with phase = cur_frac * 2 pi: every cube's height
     * becomes the sum of the wave terms of the active cubes within radius,
     * or decays by 0.85; no flag changes.
     */
    method RippleMainBehaviour(sqrt: nat -> real, sin: real -> real, phase: real)
      requires Valid() && IsSqrt(sqrt) && behaviour.Ripple?
      modifies this`cubes
      ensures Valid()
      ensures cubes == RippleRules.RippleFrame(sqrt, sin, old(cubes), behaviour.r, phase)
    {
      var activeCubes := GetAllActive();
      ghost var b0 := cubes;
      var col := 0;
      while col < |cubes|
        invariant 0 <= col <= |b0|
        invariant Rect(cubes) && SameShape(cubes, b0) && Rows(cubes) == Rows(b0)
        invariant forall q :: InGrid(b0, q) ==>
          At(cubes, q) == (if q.col < col then RippleRules.RippleCube(sqrt, sin, At(b0, q), activeCubes, behaviour.r, phase) else At(b0, q))
      {
        RippleColumn(sqrt, sin, phase, col, activeCubes);
        col := col + 1;
      }
      SameBoard(cubes, RippleRules.RippleAll(sqrt, sin, b0, activeCubes, behaviour.r, phase));
    }

    /**
     * Ripple.setRandomActive: the cube at row floor(rows * rowDraw), column
     * floor(cols * colDraw) becomes active. On an empty grid the lookup
     * throws (`ok == false`).
     */
    method RippleSetRandomActive(rowDraw: real, colDraw: real) returns (ok: bool)
      requires Valid() && 0.0 <= rowDraw < 1.0 && 0.0 <= colDraw < 1.0
      modifies this`cubes
      ensures Valid()
      ensures ok <==> |old(cubes)| > 0 && Rows(old(cubes)) > 0
      ensures ok ==> cubes == Activate(old(cubes), RippleRules.RandomCell(old(cubes), rowDraw, colDraw), Some(true))
      ensures !ok ==> cubes == old(cubes)
    {
      if |cubes| == 0 {
        return false;
      }
      var row := (|cubes[0]| as real * rowDraw).Floor;
      var col := (|cubes| as real * colDraw).Floor;
      assert Rows(cubes) > 0 ==> Pos(row, col) == RippleRules.RandomCell(cubes, rowDraw, colDraw);
      ok := SetActive(row, col, Some(true));
    }

    // -------------------------------------------------------------------
    // GameOfLife
    // -------------------------------------------------------------------

    /** The first loop of GameOfLife.mainBehaviour: currentState maps every cube to its flag. */
    method LifeSnapshot() returns (currentState: map<Pos, bool>)
      requires Valid()
      ensures currentState == LifeRules.Snapshot(cubes)
    {
      currentState := map[];
      var col := 0;
      while col < |cubes|
        invariant 0 <= col <= |cubes|
        invariant forall p :: p in currentState <==> 0 <= p.col < col && 0 <= p.row < Rows(cubes)
        invariant forall p :: p in currentState ==> InGrid(cubes, p) && currentState[p] == At(cubes, p).active
      {
        var row := 0;
        while row < |cubes[0]|
          invariant 0 <= row <= Rows(cubes)
          invariant forall p :: p in currentState <==> (0 <= p.col < col && 0 <= p.row < Rows(cubes)) || (p.col == col && 0 <= p.row < row)
          invariant forall p :: p in currentState ==> InGrid(cubes, p) && currentState[p] == At(cubes, p).active
        {
          var cube := cubes[col][row];
          assert PosOf(cube) == Pos(row, col);
          currentState := currentState[PosOf(cube) := cube.active];
          row := row + 1;
        }
        col := col + 1;
      }
    }

    /**
     * _countNeighbours: j over columns -1..1 outside, i over rows -1..1
     * inside, counting the in-grid neighbours other than the cube itself
     * whose currentState entry is true.
     */
    method CountNeighbours(cube: Cube, currentState: map<Pos, bool>) returns (aliveCount: nat)
      requires Valid() && InGrid(cubes, PosOf(cube))
      ensures aliveCount == LifeRules.NeighbourCount(currentState, Rows(cubes), |cubes|, PosOf(cube))
    {
      ghost var p, rows, cols := PosOf(cube), Rows(cubes), |cubes|;
      ghost var k := 0;
      aliveCount := 0;
      var j := -1;
      while j <= 1
        invariant -1 <= j <= 2 && k == 3 * (j + 1)
        invariant aliveCount == LifeRules.CountUpTo(currentState, rows, cols, p, k)
      {
        var i := -1;
        while i <= 1
          invariant -1 <= i <= 2 && k == 3 * (j + 1) + (i + 1)
          invariant aliveCount == LifeRules.CountUpTo(currentState, rows, cols, p, k)
        {
          var alive := LookAt(cube, currentState, i, j);
          aliveCount := aliveCount + alive;
          LifeRules.CountStep(currentState, rows, cols, p, i, j);
          i, k := i + 1, k + 1;
        }
        j := j + 1;
      }
      LifeRules.CountUpToAll(currentState, Rows(cubes), |cubes|, p);
    }

    /** One visit of _countNeighbours: 1 when the in-grid neighbour at offset (i, j) is alive in currentState. */
    method LookAt(cube: Cube, currentState: map<Pos, bool>, i: int, j: int) returns (alive: nat)
      requires Valid() && InGrid(cubes, PosOf(cube))
      ensures alive == LifeRules.Alive(currentState, Rows(cubes), |cubes|, PosOf(cube), i, j)
    {
      alive := 0;
      if cube.id.row + i >= 0 && cube.id.row + i < |cubes[0]|
        && cube.id.col + j >= 0 && cube.id.col + j < |cubes|
        && !(j == 0 && i == 0)
      {
        var adjacent := cubes[cube.id.col + j][cube.id.row + i];
        assert At(cubes, Pos(cube.id.row + i, cube.id.col + j)) == adjacent;
        if PosOf(adjacent) in currentState && currentState[PosOf(adjacent)] {
          alive := 1;
        }
      }
    }

    /** _applyRules: the cube's flag after B3/S23 on its neighbour count in currentState. */
    method ApplyRulesTo(cube: Cube, currentState: map<Pos, bool>) returns (c: Cube)
      requires Valid() && InGrid(cubes, PosOf(cube))
      ensures c == cube.(active := LifeRules.ApplyRules(cube.active, LifeRules.NeighbourCount(currentState, Rows(cubes), |cubes|, PosOf(cube))))
    {
      var aliveCount := CountNeighbours(cube, currentState);
      c := cube.(active := LifeRules.ApplyRules(cube.active, aliveCount));
    }

    /**
     * GameOfLife.setRandomActive as written (see Findings): in scan order,
     * while `count` is below `limit`, a cube whose draw exceeds 1 - chance
     * becomes active; `count` stays 0, so every cube is tried when
     * limit > 0 and none otherwise.
     */
    method LifeSetRandomActive(limit: int, chance: real, draws: seq<seq<real>>)
      requires Valid() && LifeRules.DrawsFit(draws, cubes)
      modifies this`cubes
      ensures Valid()
      ensures cubes == LifeRules.SeedAsWritten(old(cubes), LifeRules.ScanCells(|old(cubes)|, Rows(old(cubes))), limit, chance, draws)
      ensures SameShape(cubes, old(cubes)) && Rows(cubes) == Rows(old(cubes))
      ensures forall q :: InGrid(old(cubes), q) ==>
        At(cubes, q) == At(old(cubes), q).(active := At(old(cubes), q).active || (0 < limit && draws[q.col][q.row] > 1.0 - chance))
    {
      ghost var b0 := cubes;
      ghost var rest := LifeRules.ScanCells(|cubes|, Rows(cubes));
      var count := 0;
      var col := 0;
      while col < |cubes|
        invariant 0 <= col <= |b0| && rest == LifeRules.ScanFrom(col, |b0|, Rows(b0))
        invariant count == 0 && SeedLeft(cubes, b0, rest, limit, chance, draws)
      {
        rest := SeedColumn(col, count, limit, chance, draws, b0, rest);
        col := col + 1;
      }
      SeedDone(cubes, b0, limit, chance, draws);
      LifeRules.SeedAsWrittenExact(b0, LifeRules.ScanCells(|b0|, Rows(b0)), limit, chance, draws);
    }

    /** One cube of setRandomActive: while `count` is below the limit, a draw above 1 - chance sets it. */
    method SeedOne(row: int, col: int, count: int, limit: int, chance: real, draws: seq<seq<real>>)
      requires Rect(cubes) && InGrid(cubes, Pos(row, col)) && LifeRules.DrawsFit(draws, cubes)
      modifies this`cubes
      ensures cubes == if count < limit && draws[col][row] > 1.0 - chance
        then Activate(old(cubes), Pos(row, col), Some(true)) else old(cubes)
    {
      if count < limit {
        if draws[col][row] > 1.0 - chance {
          var _ := SetActive(row, col, Some(true));
        }
      }
    }

    /** The inner loop of setRandomActive over column `col`, with `count` still 0. */
    method SeedColumn(col: int, count: int, limit: int, chance: real, draws: seq<seq<real>>,
                      ghost b0: Board, ghost rest0: seq<Pos>)
      returns (ghost rest: seq<Pos>)
      requires 0 <= col < |b0| && rest0 == LifeRules.ScanFrom(col, |b0|, Rows(b0))
      requires count == 0 && SeedLeft(cubes, b0, rest0, limit, chance, draws)
      modifies this`cubes
      ensures rest == LifeRules.ScanFrom(col + 1, |b0|, Rows(b0))
      ensures SeedLeft(cubes, b0, rest, limit, chance, draws)
    {
      rest := rest0;
      RowsStart(cubes, b0, col, rest, limit, chance, draws);
      var row := 0;
      while row < |cubes[0]|
        invariant RowsLeft(cubes, b0, col, row, rest, limit, chance, draws)
      {
        RowNext(cubes, b0, col, row, rest, limit, chance, draws);
        SeedOne(row, col, count, limit, chance, draws);
        row, rest := row + 1, rest[1..];
      }
      RowsDone(cubes, b0, col, rest, limit, chance, draws);
    }

    /** One cube of the second loop of GameOfLife.mainBehaviour: _applyRules, then its height. */
    method LifeOne(row: int, col: int, currentState: map<Pos, bool>)
      requires Valid() && behaviour.GameOfLife? && InGrid(cubes, Pos(row, col))
      modifies this`cubes
      ensures Valid()
      ensures cubes == Put(old(cubes), Pos(row, col),
                           LifeRules.LifeCube(At(old(cubes), Pos(row, col)), currentState, Rows(old(cubes)), |old(cubes)|, behaviour.maxRaiseHeight))
    {
      assert At(cubes, Pos(row, col)).id == CubeId(generation, row, col);
      var cube := ApplyRulesTo(cubes[col][row], currentState);
      cube := cube.(raiseHeight := if cube.active then behaviour.maxRaiseHeight else 0.0);
      cubes := cubes[col := cubes[col][row := cube]];
    }

    /** The second loop of GameOfLife.mainBehaviour over column `col`. */
    method LifeColumn(col: int, currentState: map<Pos, bool>)
      requires Valid() && behaviour.GameOfLife? && 0 <= col < |cubes|
      modifies this`cubes
      ensures Valid() && SameShape(cubes, old(cubes)) && Rows(cubes) == Rows(old(cubes))
      ensures forall q :: InGrid(old(cubes), q) ==>
        At(cubes, q) == (if q.col == col then LifeRules.LifeCube(At(old(cubes), q), currentState, Rows(cubes), |cubes|, behaviour.maxRaiseHeight)
                         else At(old(cubes), q))
    {
      var row := 0;
      while row < |cubes[0]|
        invariant 0 <= row <= Rows(cubes) && Valid()
        invariant SameShape(cubes, old(cubes)) && Rows(cubes) == Rows(old(cubes))
        invariant forall q :: InGrid(old(cubes), q) ==>
          At(cubes, q) == (if q.col == col && q.row < row then LifeRules.LifeCube(At(old(cubes), q), currentState, Rows(cubes), |cubes|, behaviour.maxRaiseHeight)
                           else At(old(cubes), q))
      {
        LifeOne(row, col, currentState);
        row := row + 1;
      }
    }

    /**
     * GameOfLife.mainBehaviour: snapshot every flag, then give each cube its
     * B3/S23 successor and height maxRaiseHeight if alive, else 0.
     */
    method LifeMainBehaviour()
      requires Valid() && behaviour.GameOfLife?
      modifies this`cubes
      ensures Valid()
      ensures cubes == LifeRules.LifeStep(old(cubes), behaviour.maxRaiseHeight)
    {
      var currentState := LifeSnapshot();
      ghost var b0 := cubes;
      var col := 0;
      while col < |cubes|
        invariant 0 <= col <= |b0| && Valid()
        invariant SameShape(cubes, b0) && Rows(cubes) == Rows(b0)
        invariant forall q :: InGrid(b0, q) ==>
          At(cubes, q) == (if q.col < col then LifeRules.LifeCube(At(b0, q), currentState, Rows(b0), |b0|, behaviour.maxRaiseHeight) else At(b0, q))
      {
        LifeColumn(col, currentState);
        col := col + 1;
      }
      SameBoard(cubes, LifeRules.LifeStep(b0, behaviour.maxRaiseHeight));
    }
  }

  /**
   * The getAllActive snapshot of a board whose cubes name their cells:
   * a valid snapshot for the move loop, whose i-th cube sits at the i-th
   * active position.
   */
  lemma SnapshotPositions(b: Board, gen: nat)
    requires Rect(b) && PropagationRules.ActiveCarry(b)
    requires forall q :: InGrid(b, q) ==> At(b, q).id == CubeId(gen, q.row, q.col)
    ensures PropagationRules.Carrying(b, ActivePositions(b))
    ensures |ActiveCubes(b)| == |ActivePositions(b)|
    ensures forall i :: 0 <= i < |ActivePositions(b)| ==>
      Pos(ActiveCubes(b)[i].id.row, ActiveCubes(b)[i].id.col) == ActivePositions(b)[i]
  {
    PropagationRules.SnapshotCarrying(b);
    forall i | 0 <= i < |ActivePositions(b)|
      ensures Pos(ActiveCubes(b)[i].id.row, ActiveCubes(b)[i].id.col) == ActivePositions(b)[i]
    {
      assert ActivePositions(b)[i] in ActivePositions(b);
    }
  }

  /**
   * The move loop after i turns: the board `b` reached from `b0`, moved
   * over the rest of the snapshot, gives what moving `b0` over all of it gives.
   */
  ghost predicate MovesLeft(b: Board, b0: Board, ps: seq<Pos>, i: int, edge: seq<CubeId>, rebound: bool, speed: int)
  {
    && 0 <= i <= |ps| && Rect(b) && Rect(b0)
    && PropagationRules.Carrying(b0, ps) && PropagationRules.Carrying(b, ps[i..])
    && PropagationRules.AdvanceAll(b, ps[i..], edge, rebound, speed)
       == PropagationRules.AdvanceAll(b0, ps, edge, rebound, speed)
  }

  /** One turn of the move loop consumes the head of the remaining snapshot. */
  lemma AdvanceNext(b: Board, b0: Board, ps: seq<Pos>, i: int, edge: seq<CubeId>, rebound: bool, speed: int)
    requires MovesLeft(b, b0, ps, i, edge, rebound, speed) && i < |ps|
    ensures InGrid(b, ps[i]) && At(b, ps[i]).vector.Some?
    ensures MovesLeft(PropagationRules.Advance(b, ps[i], edge, rebound, speed), b0, ps, i + 1, edge, rebound, speed)
  {
    assert ps[i..][0] == ps[i] && ps[i..][1..] == ps[i + 1..];
    PropagationRules.CarryingTail(b, ps[i..], edge, rebound, speed);
  }

  /** After the last turn the board is the whole snapshot's move. */
  lemma AdvanceDone(b: Board, b0: Board, ps: seq<Pos>, edge: seq<CubeId>, rebound: bool, speed: int)
    requires MovesLeft(b, b0, ps, |ps|, edge, rebound, speed)
    ensures b == PropagationRules.AdvanceAll(b0, ps, edge, rebound, speed)
  {
    assert ps[|ps|..] == [];
  }

  /** The running x of column col, plus row steps, is x + (row - col) steps. */
  lemma CentreStepX(x: real, cx: real, t: real, row: int, col: int)
    requires cx == x - col as real * t
    ensures cx + row as real * t == x + (row - col) as real * t
  {
  }

  /** The running y of column col, plus row steps, is y + (row + col) steps. */
  lemma CentreStepY(y: real, cy: real, t: real, row: int, col: int)
    requires cy == y + col as real * t
    ensures cy + row as real * t == y + (row + col) as real * t
  {
  }
}
