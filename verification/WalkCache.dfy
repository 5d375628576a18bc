/**
 The walk cache of a creature: for the 23 by 23 tiles around it, whether it could step there.  A
 step shifts the cache in place and refreshes its edges.
 */
module WalkCache {
  import opened Positions

  const SIZE := 23
  const REACH := 11

  /** Whether a tile exists and admits the creature; the map is not part of the model. */
  type Ground = (int, int) -> bool

  function Abs(n: int): int {
    if n < 0 then -n else n
  }

  predicate InGrid(y: int, x: int) {
    0 <= y < SIZE && 0 <= x < SIZE
  }

  /** The tile a cell stands for when the creature is at `p`. */
  function TileX(p: Position, x: int): int {
    p.x + x - REACH
  }

  function TileY(p: Position, y: int): int {
    p.y + y - REACH
  }

  predicate IsTile(p: Position, y: int, x: int, at: Position) {
    TileX(p, x) == at.x && TileY(p, y) == at.y
  }

  class Creature {
    const cells: array2<bool>

    ghost predicate Valid() {
      cells.Length0 == SIZE && cells.Length1 == SIZE
    }

    constructor ()
      ensures Valid() && fresh(cells)
    {
      cells := new bool[SIZE, SIZE];
    }

    /** Every cell but the one the creature itself is on says what the ground says. */
    ghost predicate Matches(p: Position, ground: Ground)
      requires Valid()
      reads cells
    {
      forall y, x :: InGrid(y, x) && !(y == REACH && x == REACH) ==> cells[y, x] == ground(TileX(p, x), TileY(p, y))
    }

    method UpdateTileCache(walkable: bool, dx: int, dy: int)
      requires Valid()
      modifies cells
      ensures forall y, x :: InGrid(y, x) ==>
                cells[y, x] == if y == REACH + dy && x == REACH + dx then walkable else old(cells[y, x])
    {
      if Abs(dx) <= REACH && Abs(dy) <= REACH {
        cells[REACH + dy, REACH + dx] := walkable;
      }
    }

    /** `updateMapCache`: everything is asked anew. */
    method UpdateMapCache(p: Position, ground: Ground)
      requires Valid()
      modifies cells
      ensures forall y, x :: InGrid(y, x) ==> cells[y, x] == ground(TileX(p, x), TileY(p, y))
    {
      var dy := -REACH;
      while dy <= REACH
        invariant -REACH <= dy <= REACH + 1
        invariant forall y, x :: InGrid(y, x) && y < dy + REACH ==> cells[y, x] == ground(TileX(p, x), TileY(p, y))
      {
        RefreshRow(p, ground, dy);
        dy := dy + 1;
      }
    }

    /** One row is asked anew. */
    method RefreshRow(p: Position, ground: Ground, dy: int)
      requires Valid() && -REACH <= dy <= REACH
      modifies cells
      ensures forall y, x :: InGrid(y, x) ==>
                cells[y, x] == if y == REACH + dy then ground(TileX(p, x), TileY(p, y)) else old(cells[y, x])
    {
      var dx := -REACH;
      while dx <= REACH
        invariant -REACH <= dx <= REACH + 1
        invariant forall y, x :: InGrid(y, x) ==>
                    cells[y, x] == if y == REACH + dy && x < REACH + dx then ground(TileX(p, x), TileY(p, y)) else old(cells[y, x])
      {
        UpdateTileCache(ground(p.x + dx, p.y + dy), dx, dy);
        dx := dx + 1;
      }
    }

    /** One column is asked anew. */
    method RefreshColumn(p: Position, ground: Ground, dx: int)
      requires Valid() && -REACH <= dx <= REACH
      modifies cells
      ensures forall y, x :: InGrid(y, x) ==>
                cells[y, x] == if x == REACH + dx then ground(TileX(p, x), TileY(p, y)) else old(cells[y, x])
    {
      var dy := -REACH;
      while dy <= REACH
        invariant -REACH <= dy <= REACH + 1
        invariant forall y, x :: InGrid(y, x) ==>
                    cells[y, x] == if x == REACH + dx && y < REACH + dy then ground(TileX(p, x), TileY(p, y)) else old(cells[y, x])
      {
        UpdateTileCache(ground(p.x + dx, p.y + dy), dx, dy);
        dy := dy + 1;
      }
    }

    method CopyRow(to: int, from: int)
      requires Valid() && 0 <= to < SIZE && 0 <= from < SIZE
      modifies cells
      ensures forall y, x :: InGrid(y, x) ==> cells[y, x] == old(cells[if y == to then from else y, x])
    {
      forall x | 0 <= x < SIZE {
        cells[to, x] := cells[from, x];
      }
    }

    /** Rows move down by one; the first stays. */
    method ShiftSouth()
      requires Valid()
      modifies cells
      ensures forall y, x :: InGrid(y, x) ==> cells[y, x] == old(cells[if y > 0 then y - 1 else y, x])
    {
      var y := SIZE - 1;
      while y > 0
        invariant 0 <= y <= SIZE - 1
        invariant forall i, x :: InGrid(i, x) ==> cells[i, x] == old(cells[if i > y then i - 1 else i, x])
      {
        y := y - 1;
        CopyRow(y + 1, y);
      }
    }

    /** Rows move up by one; the last stays. */
    method ShiftNorth()
      requires Valid()
      modifies cells
      ensures forall y, x :: InGrid(y, x) ==> cells[y, x] == old(cells[if y < SIZE - 1 then y + 1 else y, x])
    {
      var y := 0;
      while y <= SIZE - 2
        invariant 0 <= y <= SIZE - 1
        invariant forall i, x :: InGrid(i, x) ==> cells[i, x] == old(cells[if i < y then i + 1 else i, x])
      {
        CopyRow(y, y + 1);
        y := y + 1;
      }
    }

    /** In some rows the cells move left by one; the last of each stays. */
    method ShiftWest(starty: int, endy: int)
      requires Valid() && 0 <= starty && endy < SIZE
      modifies cells
      ensures forall y, x :: InGrid(y, x) ==>
                cells[y, x] == old(cells[y, if starty <= y <= endy && x < SIZE - 1 then x + 1 else x])
    {
      var y := starty;
      while y <= endy
        invariant starty <= y
        invariant forall i, x :: InGrid(i, x) ==>
                    cells[i, x] == old(cells[i, if starty <= i < y && i <= endy && x < SIZE - 1 then x + 1 else x])
      {
        RowWest(y);
        y := y + 1;
      }
    }

    method RowWest(row: int)
      requires Valid() && 0 <= row < SIZE
      modifies cells
      ensures forall y, x :: InGrid(y, x) ==> cells[y, x] == old(cells[y, if y == row && x < SIZE - 1 then x + 1 else x])
    {
      var x := 0;
      while x <= SIZE - 2
        invariant 0 <= x <= SIZE - 1
        invariant forall y, i :: InGrid(y, i) && !(y == row && i < x) ==> cells[y, i] == old(cells[y, i])
        invariant forall i :: 0 <= i < x ==> cells[row, i] == old(cells[row, i + 1])
      {
        cells[row, x] := cells[row, x + 1];
        x := x + 1;
      }
    }

    /** In some rows the cells move right by one; the first of each stays. */
    method ShiftEast(starty: int, endy: int)
      requires Valid() && 0 <= starty && endy < SIZE
      modifies cells
      ensures forall y, x :: InGrid(y, x) ==>
                cells[y, x] == old(cells[y, if starty <= y <= endy && x > 0 then x - 1 else x])
    {
      var y := starty;
      while y <= endy
        invariant starty <= y
        invariant forall i, x :: InGrid(i, x) ==>
                    cells[i, x] == old(cells[i, if starty <= i < y && i <= endy && x > 0 then x - 1 else x])
      {
        RowEast(y);
        y := y + 1;
      }
    }

    method RowEast(row: int)
      requires Valid() && 0 <= row < SIZE
      modifies cells
      ensures forall y, x :: InGrid(y, x) ==> cells[y, x] == old(cells[y, if y == row && x > 0 then x - 1 else x])
    {
      var x := SIZE - 1;
      while x > 0
        invariant 0 <= x <= SIZE - 1
        invariant forall y, i :: InGrid(y, i) && !(y == row && i > x) ==> cells[y, i] == old(cells[y, i])
        invariant forall i :: x < i < SIZE ==> cells[row, i] == old(cells[row, i - 1])
      {
        x := x - 1;
        cells[row, x + 1] := cells[row, x];
      }
    }

    /** The first half of a step: rows, and the row that comes into view. */
    method StepRows(oldPos: Position, newPos: Position, ground: Ground)
      requires Valid()
      modifies cells
      ensures forall y, x :: InGrid(y, x) ==>
                cells[y, x] ==
                if oldPos.y > newPos.y then (if y == 0 then ground(TileX(newPos, x), TileY(newPos, y)) else old(cells[y - 1, x]))
                else if oldPos.y < newPos.y then
                  (if y == SIZE - 1 then ground(TileX(newPos, x), TileY(newPos, y)) else old(cells[y + 1, x]))
                else old(cells[y, x])
    {
      if oldPos.y > newPos.y {
        ShiftSouth();
        RefreshRow(newPos, ground, -REACH);
      } else if oldPos.y < newPos.y {
        ShiftNorth();
        RefreshRow(newPos, ground, REACH);
      }
    }

    /** The second half: columns.  `dy` is a distance, so it is never negative. */
    method StepColumns(oldPos: Position, newPos: Position, ground: Ground)
      requires Valid() && Abs(oldPos.y - newPos.y) <= 1
      modifies cells
      ensures forall y, x :: InGrid(y, x) ==>
                cells[y, x] ==
                if oldPos.x < newPos.x then
                  (if x == SIZE - 1 then ground(TileX(newPos, x), TileY(newPos, y))
                   else if oldPos.y != newPos.y && y == 0 then old(cells[y, x]) else old(cells[y, x + 1]))
                else if oldPos.x > newPos.x then
                  (if x == 0 then ground(TileX(newPos, x), TileY(newPos, y))
                   else if oldPos.y != newPos.y && y == 0 then old(cells[y, x]) else old(cells[y, x - 1]))
                else old(cells[y, x])
    {
      var dy := Abs(oldPos.y - newPos.y);
      var starty, endy := 0, SIZE - 1;
      if dy < 0 {
        endy := endy + dy;
      } else if dy > 0 {
        starty := dy;
      }
      if oldPos.x < newPos.x {
        ShiftWest(starty, endy);
        RefreshColumn(newPos, ground, REACH);
      } else if oldPos.x > newPos.x {
        ShiftEast(starty, endy);
        RefreshColumn(newPos, ground, -REACH);
      }
    }

    /** Both halves together. */
    method Step(oldPos: Position, newPos: Position, ground: Ground)
      requires Valid() && Abs(oldPos.y - newPos.y) <= 1
      modifies cells
      ensures forall y, x :: InGrid(y, x) ==>
                var row, column := RowFrom(oldPos, newPos, y), ColumnFrom(oldPos, newPos, y, x);
                cells[y, x] ==
                if column == -1 then ground(TileX(newPos, x), TileY(newPos, y))
                else if row == -1 then ground(TileX(newPos, column), TileY(newPos, y))
                else old(cells[row, column])
    {
      StepRows(oldPos, newPos, ground);
      StepColumns(oldPos, newPos, ground);
    }

    /** A step of one tile on the same floor. */
    method Walk(oldPos: Position, newPos: Position, ground: Ground) returns (ghost c: Grid, ghost n: Grid)
      requires Valid() && Abs(oldPos.y - newPos.y) <= 1
      modifies cells
      ensures c == old(Snapshot()) && n == Snapshot() && Moved(c, n, oldPos, newPos, ground)
    {
      c := Snapshot();
      Step(oldPos, newPos, ground);
      UpdateTileCache(ground(oldPos.x, oldPos.y), oldPos.x - newPos.x, oldPos.y - newPos.y);
      n := Snapshot();
      forall y, x | InGrid(y, x)
        ensures n[Cell(y, x)] == MovedCell(c, oldPos, newPos, ground, y, x)
      {
        assert n[Cell(y, x)] == cells[y, x];
      }
    }

    /**
     The cache after a step.  It is right for every step but a diagonal one to the south; after
     such a step it is right only if the ground happens to be the same all along two edges.
     */
    method OnCreatureMove(oldPos: Position, newPos: Position, teleport: bool, ground: Ground, ghost before: Ground)
      requires Valid()
      requires !teleport && oldPos.z == newPos.z ==>
                 IsStep(oldPos, newPos) && Matches(oldPos, before) && SameElsewhere(before, ground, oldPos, newPos)
      modifies cells
      ensures teleport || oldPos.z != newPos.z || !SouthDiagonal(oldPos, newPos) ==> Matches(newPos, ground)
      ensures !teleport && oldPos.z == newPos.z && SouthDiagonal(oldPos, newPos) ==>
                (Matches(newPos, ground) <==> EvenEdges(oldPos, newPos, ground))
    {
      if teleport || oldPos.z != newPos.z {
        UpdateMapCache(newPos, ground);
        return;
      }
      var c, n := Walk(oldPos, newPos, ground);
      StepIsRight(c, n, oldPos, newPos, before, ground);
    }

    ghost function Snapshot(): (g: Grid)
      requires Valid()
      reads cells
      ensures forall y, x :: InGrid(y, x) ==> Cell(y, x) in g && g[Cell(y, x)] == cells[y, x]
    {
      map y, x | 0 <= y < SIZE && 0 <= x < SIZE :: Cell(y, x) := cells[y, x]
    }

    /**
     `getWalkCache` where the cache is in use: 1 for yes, 0 for no, 2 for out of range.  While the cache
     is right, a tile in reach gets the answer of the ground; the own tile is always answered with yes.
     */
    method GetWalkCache(myPos: Position, pos: Position, ghost ground: Ground) returns (r: int)
      requires Valid()
      ensures r == 2 <==> myPos.z == pos.z && (Abs(pos.x - myPos.x) > REACH || Abs(pos.y - myPos.y) > REACH)
      ensures Matches(myPos, ground) && r != 2 && pos != myPos ==> (r == 1 <==> myPos.z == pos.z && ground(pos.x, pos.y))
      ensures pos == myPos ==> r == 1
      ensures r == if myPos.z != pos.z then 0 else if pos == myPos then 1
                   else if Abs(pos.x - myPos.x) <= REACH && Abs(pos.y - myPos.y) <= REACH then
                     (if cells[REACH + pos.y - myPos.y, REACH + pos.x - myPos.x] then 1 else 0)
                   else 2
    {
      if myPos.z != pos.z {
        return 0;
      }
      if pos == myPos {
        return 1;
      }
      var dx := pos.x - myPos.x;
      if Abs(dx) <= REACH {
        var dy := pos.y - myPos.y;
        if Abs(dy) <= REACH {
          assert InGrid(REACH + dy, REACH + dx);
          if cells[REACH + dy, REACH + dx] {
            return 1;
          } else {
            return 0;
          }
        }
      }
      r := 2;
    }
  }

  // ----- what a step does to the cache -----

  datatype Cell = Cell(y: int, x: int)

  type Grid = map<Cell, bool>

  /** Only the two tiles the creature leaves and enters have changed. */
  ghost predicate SameElsewhere(before: Ground, after: Ground, oldPos: Position, newPos: Position) {
    forall x, y :: !(x == oldPos.x && y == oldPos.y) && !(x == newPos.x && y == newPos.y) ==> before(x, y) == after(x, y)
  }

  predicate SouthDiagonal(oldPos: Position, newPos: Position) {
    oldPos.y < newPos.y && oldPos.x != newPos.x
  }

  ghost predicate Full(g: Grid) {
    forall y, x :: InGrid(y, x) ==> Cell(y, x) in g
  }

  ghost predicate Right(g: Grid, p: Position, ground: Ground)
    requires Full(g)
  {
    forall y, x :: InGrid(y, x) && !(y == REACH && x == REACH) ==> g[Cell(y, x)] == ground(TileX(p, x), TileY(p, y))
  }

  /** Which row a cell of the second half comes from, in the cache before the step; -1 for a row asked anew. */
  function RowFrom(oldPos: Position, newPos: Position, y: int): int {
    if oldPos.y > newPos.y then y - 1
    else if oldPos.y < newPos.y then (if y == SIZE - 1 then -1 else y + 1)
    else y
  }

  /** Which column a cell comes from after the first half; -1 for a column asked anew. */
  function ColumnFrom(oldPos: Position, newPos: Position, y: int, x: int): int {
    if oldPos.x < newPos.x then
      (if x == SIZE - 1 then -1 else if oldPos.y != newPos.y && y == 0 then x else x + 1)
    else if oldPos.x > newPos.x then
      (if x == 0 then -1 else if oldPos.y != newPos.y && y == 0 then x else x - 1)
    else x
  }

  /** Where a cell's value comes from, all in all. */
  function MovedCell(c: Grid, oldPos: Position, newPos: Position, ground: Ground, y: int, x: int): bool
    requires Full(c) && InGrid(y, x)
  {
    var row, column := RowFrom(oldPos, newPos, y), ColumnFrom(oldPos, newPos, y, x);
    if IsTile(newPos, y, x, oldPos) then ground(oldPos.x, oldPos.y)
    else if column == -1 then ground(TileX(newPos, x), TileY(newPos, y))
    else if row == -1 then ground(TileX(newPos, column), TileY(newPos, y))
    else c[Cell(row, column)]
  }

  ghost predicate Moved(c: Grid, n: Grid, oldPos: Position, newPos: Position, ground: Ground) {
    Full(c) && Full(n) && forall y, x :: InGrid(y, x) ==> n[Cell(y, x)] == MovedCell(c, oldPos, newPos, ground, y, x)
  }

  /**
   After a diagonal step to the south the first row has not been shifted sideways and the last one
   has been shifted although it was new: this is what the ground must be like for that not to matter.
   */
  ghost predicate EvenEdges(oldPos: Position, newPos: Position, ground: Ground) {
    forall x :: 0 <= x < SIZE ==> EvenTop(oldPos, newPos, ground, x) && EvenBottom(oldPos, newPos, ground, x)
  }

  predicate EvenTop(oldPos: Position, newPos: Position, ground: Ground, x: int) {
    var s, y := newPos.x - oldPos.x, newPos.y - REACH;
    0 <= x + s < SIZE ==> ground(TileX(newPos, x) - s, y) == ground(TileX(newPos, x), y)
  }

  predicate EvenBottom(oldPos: Position, newPos: Position, ground: Ground, x: int) {
    var s, y := newPos.x - oldPos.x, newPos.y + REACH;
    0 <= x + s < SIZE ==> ground(TileX(newPos, x) + s, y) == ground(TileX(newPos, x), y)
  }

  /** How far off the tile is whose answer ends up in a cell. */
  function Skew(oldPos: Position, newPos: Position, y: int, x: int): int {
    var s := newPos.x - oldPos.x;
    if !SouthDiagonal(oldPos, newPos) || !(0 <= x + s < SIZE) then 0
    else if y == 0 then -s else if y == SIZE - 1 then s else 0
  }

  predicate IsStep(oldPos: Position, newPos: Position) {
    Abs(oldPos.x - newPos.x) <= 1 && Abs(oldPos.y - newPos.y) <= 1
  }

  /** A cell that is moved answers for the tile it comes from. */
  lemma FromCache(oldPos: Position, newPos: Position, before: Ground, ground: Ground, c: Grid, y: int, x: int)
    requires IsStep(oldPos, newPos) && Full(c) && Right(c, oldPos, before) && SameElsewhere(before, ground, oldPos, newPos)
    requires InGrid(y, x) && !(y == REACH && x == REACH) && !IsTile(newPos, y, x, oldPos)
    requires RowFrom(oldPos, newPos, y) != -1 && ColumnFrom(oldPos, newPos, y, x) != -1
    ensures InGrid(RowFrom(oldPos, newPos, y), ColumnFrom(oldPos, newPos, y, x))
    ensures c[Cell(RowFrom(oldPos, newPos, y), ColumnFrom(oldPos, newPos, y, x))] ==
            ground(TileX(newPos, x) + Skew(oldPos, newPos, y, x), TileY(newPos, y))
  {
    var row, column := RowFrom(oldPos, newPos, y), ColumnFrom(oldPos, newPos, y, x);
    assert TileY(oldPos, row) == TileY(newPos, y);
    assert TileX(oldPos, column) == TileX(newPos, x) + Skew(oldPos, newPos, y, x);
  }

  lemma CellIs(c: Grid, n: Grid, oldPos: Position, newPos: Position, before: Ground, ground: Ground, y: int, x: int)
    requires IsStep(oldPos, newPos)
    requires Moved(c, n, oldPos, newPos, ground) && Right(c, oldPos, before) && SameElsewhere(before, ground, oldPos, newPos)
    requires InGrid(y, x) && !(y == REACH && x == REACH)
    ensures n[Cell(y, x)] == ground(TileX(newPos, x) + Skew(oldPos, newPos, y, x), TileY(newPos, y))
  {
    assert n[Cell(y, x)] == MovedCell(c, oldPos, newPos, ground, y, x);
    if IsTile(newPos, y, x, oldPos) || ColumnFrom(oldPos, newPos, y, x) == -1 || RowFrom(oldPos, newPos, y) == -1 {
    } else {
      FromCache(oldPos, newPos, before, ground, c, y, x);
    }
  }

  lemma StepIsRight(c: Grid, n: Grid, oldPos: Position, newPos: Position, before: Ground, ground: Ground)
    requires IsStep(oldPos, newPos)
    requires Moved(c, n, oldPos, newPos, ground) && Right(c, oldPos, before) && SameElsewhere(before, ground, oldPos, newPos)
    ensures !SouthDiagonal(oldPos, newPos) ==> Right(n, newPos, ground)
    ensures SouthDiagonal(oldPos, newPos) ==> (Right(n, newPos, ground) <==> EvenEdges(oldPos, newPos, ground))
  {
    forall y, x | InGrid(y, x) && !(y == REACH && x == REACH)
      ensures n[Cell(y, x)] == ground(TileX(newPos, x) + Skew(oldPos, newPos, y, x), TileY(newPos, y))
    {
      CellIs(c, n, oldPos, newPos, before, ground, y, x);
    }
    if SouthDiagonal(oldPos, newPos) {
      SkewMatters(n, oldPos, newPos, ground);
    }
  }

  lemma SkewMatters(n: Grid, oldPos: Position, newPos: Position, ground: Ground)
    requires Full(n) && IsStep(oldPos, newPos) && SouthDiagonal(oldPos, newPos)
    requires forall y, x :: InGrid(y, x) && !(y == REACH && x == REACH) ==>
               n[Cell(y, x)] == ground(TileX(newPos, x) + Skew(oldPos, newPos, y, x), TileY(newPos, y))
    ensures Right(n, newPos, ground) <==> EvenEdges(oldPos, newPos, ground)
  {
    if Right(n, newPos, ground) {
      forall x | 0 <= x < SIZE
        ensures EvenTop(oldPos, newPos, ground, x) && EvenBottom(oldPos, newPos, ground, x)
      {
        assert InGrid(0, x) && InGrid(SIZE - 1, x);
      }
    }
    if EvenEdges(oldPos, newPos, ground) {
      forall y, x | InGrid(y, x) && !(y == REACH && x == REACH)
        ensures n[Cell(y, x)] == ground(TileX(newPos, x), TileY(newPos, y))
      {
        assert EvenTop(oldPos, newPos, ground, x) && EvenBottom(oldPos, newPos, ground, x);
      }
    }
  }

  /** A wall on the northern edge is enough: after the step the cache says the wall is where it is not. */
  lemma SouthEastGoesWrong(c: Grid, n: Grid, ground: Ground)
    requires forall x, y :: ground(x, y) == !(x == 89 && y == 90)
    requires Full(c) && Right(c, Position(100, 100, 7), ground)
    requires Moved(c, n, Position(100, 100, 7), Position(101, 101, 7), ground)
    ensures !Right(n, Position(101, 101, 7), ground) && !n[Cell(0, 0)] && ground(90, 90)
  {
    assert InGrid(0, 0);
    CellIs(c, n, Position(100, 100, 7), Position(101, 101, 7), ground, ground, 0, 0);
    assert n[Cell(0, 0)] == ground(89, 90);
  }
}
