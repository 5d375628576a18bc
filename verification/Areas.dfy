/**
 Areas of spells: matrices with a centre, turned and reflected for the directions a caster can face.
 What matters of a matrix is which offsets from its centre it covers.
 */
module Areas {
  import opened Positions

  datatype Operation = Copy | Mirror | Flip | Rotate90 | Rotate180 | Rotate270

  predicate IsRotation(op: Operation) {
    op.Rotate90? || op.Rotate180? || op.Rotate270?
  }

  datatype Offset = Offset(dx: int, dy: int)

  /** A rotation of an offset: sines and cosines of right angles are 0, 1 and -1. */
  function Turn(op: Operation, o: Offset): Offset {
    match op
    case Rotate90 => Offset(-o.dy, o.dx)
    case Rotate180 => Offset(-o.dx, -o.dy)
    case Rotate270 => Offset(o.dy, -o.dx)
    case _ => o
  }

  function TurnBack(op: Operation, o: Offset): Offset {
    match op
    case Rotate90 => Turn(Rotate270, o)
    case Rotate270 => Turn(Rotate90, o)
    case _ => Turn(op, o)
  }

  /** Four quarter turns are none, two are half a turn, and turning back undoes turning. */
  lemma TurnsCompose(op: Operation, o: Offset)
    ensures Turn(Rotate90, Turn(Rotate90, o)) == Turn(Rotate180, o)
    ensures Turn(Rotate90, Turn(Rotate180, o)) == Turn(Rotate270, o)
    ensures Turn(Rotate90, Turn(Rotate270, o)) == o
    ensures TurnBack(op, Turn(op, o)) == o && Turn(op, TurnBack(op, o)) == o
  {
  }

  /**
   Where a covered offset of the output comes from.  The centres of mirrored and flipped matrices
   are computed with the wrong side, which shows when the matrix is not a square.
   */
  function Origin(op: Operation, rows: nat, cols: nat, o: Offset): Offset {
    match op
    case Copy => o
    case Mirror => Offset(cols - rows - o.dx, o.dy)
    case Flip => Offset(o.dx, rows - cols - o.dy)
    case _ => TurnBack(op, o)
  }

  function Max(a: nat, b: nat): nat {
    if a < b then b else a
  }

  class MatrixArea {
    const rows: nat
    const cols: nat
    const data: array2<bool>
    var centerY: int
    var centerX: int

    ghost predicate Valid() {
      data.Length0 == rows && data.Length1 == cols
    }

    predicate Inside(y: int, x: int) {
      0 <= y < rows && 0 <= x < cols
    }

    predicate Covers(o: Offset)
      requires Valid()
      reads this, data
    {
      Inside(centerY + o.dy, centerX + o.dx) && data[centerY + o.dy, centerX + o.dx]
    }

    constructor (rows: nat, cols: nat)
      ensures Valid() && fresh(data) && this.rows == rows && this.cols == cols && centerY == 0 && centerX == 0
      ensures forall y, x :: Inside(y, x) ==> !data[y, x]
    {
      this.rows, this.cols, centerY, centerX := rows, cols, 0, 0;
      data := new bool[rows, cols]((y, x) => false);
    }

    method SetCenter(y: int, x: int)
      modifies this
      ensures centerY == y && centerX == x
    {
      centerY, centerX := y, x;
    }
  }

  ghost predicate Empty(m: MatrixArea)
    requires m.Valid()
    reads m, m.data
  {
    forall y, x :: m.Inside(y, x) ==> !m.data[y, x]
  }

  /** Where a cell of a rotated matrix comes from; `r` is the centre of the output. */
  function Source(op: Operation, cy: int, cx: int, r: int, y: int, x: int): Offset {
    var o := TurnBack(op, Offset(x - r, y - r));
    Offset(cx + o.dx, cy + o.dy)
  }

  lemma SourceIs(op: Operation, cy: int, cx: int, r: int, y: int, x: int, Y: int, X: int)
    ensures var o := Turn(op, Offset(x - cx, y - cy));
            Source(op, cy, cx, r, Y, X) == Offset(x, y) <==> Y == o.dy + r && X == o.dx + r
  {
  }

  /** A rotated cell stays inside a square of twice the longer side. */
  lemma StaysInside(op: Operation, rows: nat, cols: nat, cy: int, cx: int, y: int, x: int)
    requires IsRotation(op) && 0 <= cy < rows && 0 <= cx < cols && 0 <= y < rows && 0 <= x < cols
    ensures var o, n := Turn(op, Offset(x - cx, y - cy)), Max(rows, cols);
            0 <= o.dx + n - 1 < 2 * n && 0 <= o.dy + n - 1 < 2 * n
  {
  }

  /** The cell comes from a cell in front of column `x`, row `y`. */
  predicate Before(s: Offset, x: int, y: int) {
    s.dx < x || (s.dx == x && s.dy < y)
  }

  ghost predicate CellIs(input: MatrixArea, output: MatrixArea, op: Operation, r: int, x: int, y: int, Y: int, X: int)
    requires input.Valid() && output.Valid() && output.Inside(Y, X)
    reads input, input.data, output, output.data
  {
    var s := Source(op, input.centerY, input.centerX, r, Y, X);
    output.data[Y, X] <==> input.Inside(s.dy, s.dx) && Before(s, x, y) && input.data[s.dy, s.dx]
  }

  /** What has been written when the copying has got to column `x`, row `y`. */
  ghost predicate FilledTo(input: MatrixArea, output: MatrixArea, op: Operation, r: int, x: int, y: int)
    requires input.Valid() && output.Valid()
    reads input, input.data, output, output.data
  {
    forall Y, X :: output.Inside(Y, X) ==> CellIs(input, output, op, r, x, y, Y, X)
  }

  method RotateCell(input: MatrixArea, output: MatrixArea, op: Operation, r: int, x: int, y: int)
    requires input != output && input.data != output.data && input.Valid() && output.Valid() && IsRotation(op)
    requires input.Inside(input.centerY, input.centerX) && input.Inside(y, x)
    requires output.rows == output.cols == 2 * Max(input.rows, input.cols) && r == Max(input.rows, input.cols) - 1
    requires FilledTo(input, output, op, r, x, y)
    modifies output.data
    ensures FilledTo(input, output, op, r, x, y + 1)
  {
    var newX, newY := x - input.centerX, y - input.centerY;
    var rotated := Turn(op, Offset(newX, newY));
    StaysInside(op, input.rows, input.cols, input.centerY, input.centerX, y, x);
    output.data[rotated.dy + r, rotated.dx + r] := input.data[y, x];
    forall Y, X | output.Inside(Y, X)
      ensures CellIs(input, output, op, r, x, y + 1, Y, X)
    {
      SourceIs(op, input.centerY, input.centerX, r, y, x, Y, X);
      assert old(CellIs(input, output, op, r, x, y, Y, X));
    }
  }

  /** The end of a column is the start of the next. */
  lemma NextColumn(input: MatrixArea, output: MatrixArea, op: Operation, r: int, x: int)
    requires input.Valid() && output.Valid() && FilledTo(input, output, op, r, x, input.rows)
    ensures FilledTo(input, output, op, r, x + 1, 0)
  {
    forall Y, X | output.Inside(Y, X)
      ensures CellIs(input, output, op, r, x + 1, 0, Y, X)
    {
      assert CellIs(input, output, op, r, x, input.rows, Y, X);
    }
  }

  method RotateCells(input: MatrixArea, output: MatrixArea, op: Operation, r: int)
    requires input != output && input.data != output.data && input.Valid() && output.Valid() && IsRotation(op) && Empty(output)
    requires input.rows > 0 && input.cols > 0 ==> input.Inside(input.centerY, input.centerX)
    requires output.rows == output.cols == 2 * Max(input.rows, input.cols) && r == Max(input.rows, input.cols) - 1
    modifies output.data
    ensures FilledTo(input, output, op, r, input.cols, 0)
  {
    var x := 0;
    while x < input.cols
      invariant 0 <= x <= input.cols && FilledTo(input, output, op, r, x, 0)
    {
      var y := 0;
      while y < input.rows
        invariant 0 <= y <= input.rows && FilledTo(input, output, op, r, x, y)
      {
        RotateCell(input, output, op, r, x, y);
        y := y + 1;
      }
      NextColumn(input, output, op, r, x);
      x := x + 1;
    }
  }

  /** The covered offsets of the output are those of the input, turned; nothing is outside of the matrix. */
  lemma CoversTurned(input: MatrixArea, output: MatrixArea, op: Operation, r: int, o: Offset)
    requires input.Valid() && output.Valid() && FilledTo(input, output, op, r, input.cols, 0) && IsRotation(op)
    requires input.rows > 0 && input.cols > 0 ==> input.Inside(input.centerY, input.centerX)
    requires output.rows == output.cols == 2 * Max(input.rows, input.cols) && r == Max(input.rows, input.cols) - 1
    requires output.centerY == r && output.centerX == r
    ensures output.Covers(o) <==> input.Covers(TurnBack(op, o))
  {
    var s := TurnBack(op, o);
    if output.Inside(r + o.dy, r + o.dx) {
      assert CellIs(input, output, op, r, input.cols, 0, r + o.dy, r + o.dx);
    } else if input.Covers(s) {
      StaysInside(op, input.rows, input.cols, input.centerY, input.centerX, input.centerY + s.dy, input.centerX + s.dx);
      TurnsCompose(op, o);
    }
  }

  method Rotate(input: MatrixArea, output: MatrixArea, op: Operation)
    requires input != output && input.data != output.data && input.Valid() && output.Valid() && IsRotation(op) && Empty(output)
    requires input.rows > 0 && input.cols > 0 ==> input.Inside(input.centerY, input.centerX)
    requires output.rows == output.cols == 2 * Max(input.rows, input.cols)
    modifies output, output.data
    ensures forall o :: output.Covers(o) <==> input.Covers(Origin(op, input.rows, input.cols, o))
  {
    var rotateCenterX, rotateCenterY := output.cols / 2 - 1, output.rows / 2 - 1;
    RotateCells(input, output, op, rotateCenterX);
    output.SetCenter(rotateCenterY, rotateCenterX);
    forall o: Offset | true
      ensures output.Covers(o) <==> input.Covers(TurnBack(op, o))
    {
      CoversTurned(input, output, op, rotateCenterX, o);
    }
  }

  // ----- copies and reflections -----

  method CopyCells(input: MatrixArea, output: MatrixArea)
    requires input != output && input.data != output.data && input.Valid() && output.Valid() && Empty(output)
    requires input.rows <= output.rows && input.cols <= output.cols
    modifies output.data
    ensures forall Y, X :: output.Inside(Y, X) ==> (output.data[Y, X] <==> input.Inside(Y, X) && input.data[Y, X])
  {
    var y := 0;
    while y < input.rows
      invariant 0 <= y <= input.rows
      invariant forall Y, X :: output.Inside(Y, X) ==>
                  (output.data[Y, X] <==> Y < y && input.Inside(Y, X) && input.data[Y, X])
    {
      var x := 0;
      while x < input.cols
        invariant 0 <= x <= input.cols
        invariant forall Y, X :: output.Inside(Y, X) ==>
                    (output.data[Y, X] <==> (Y < y || (Y == y && X < x)) && input.Inside(Y, X) && input.data[Y, X])
      {
        output.data[y, x] := input.data[y, x];
        x := x + 1;
      }
      y := y + 1;
    }
  }

  method MirrorCells(input: MatrixArea, output: MatrixArea)
    requires input != output && input.data != output.data && input.Valid() && output.Valid() && Empty(output)
    requires input.rows <= output.rows && input.cols <= output.cols
    modifies output.data
    ensures forall Y, X :: output.Inside(Y, X) ==>
              (output.data[Y, X] <==> input.Inside(Y, input.cols - 1 - X) && input.data[Y, input.cols - 1 - X])
  {
    var y := 0;
    while y < input.rows
      invariant 0 <= y <= input.rows
      invariant forall Y, X :: output.Inside(Y, X) ==>
                  (output.data[Y, X] <==>
                   Y < y && input.Inside(Y, input.cols - 1 - X) && input.data[Y, input.cols - 1 - X])
    {
      var rx, x := 0, input.cols;
      while x > 0
        invariant 0 <= x <= input.cols && rx == input.cols - x
        invariant forall Y, X :: output.Inside(Y, X) ==>
                    (output.data[Y, X] <==>
                     (Y < y || (Y == y && X < rx)) && input.Inside(Y, input.cols - 1 - X) && input.data[Y, input.cols - 1 - X])
      {
        x := x - 1;
        output.data[y, rx] := input.data[y, x];
        rx := rx + 1;
      }
      y := y + 1;
    }
  }

  method FlipCells(input: MatrixArea, output: MatrixArea)
    requires input != output && input.data != output.data && input.Valid() && output.Valid() && Empty(output)
    requires input.rows <= output.rows && input.cols <= output.cols
    modifies output.data
    ensures forall Y, X :: output.Inside(Y, X) ==>
              (output.data[Y, X] <==> input.Inside(input.rows - 1 - Y, X) && input.data[input.rows - 1 - Y, X])
  {
    var x := 0;
    while x < input.cols
      invariant 0 <= x <= input.cols
      invariant forall Y, X :: output.Inside(Y, X) ==>
                  (output.data[Y, X] <==>
                   X < x && input.Inside(input.rows - 1 - Y, X) && input.data[input.rows - 1 - Y, X])
    {
      var ry, y := 0, input.rows;
      while y > 0
        invariant 0 <= y <= input.rows && ry == input.rows - y
        invariant forall Y, X :: output.Inside(Y, X) ==>
                    (output.data[Y, X] <==>
                     (X < x || (X == x && Y < ry)) && input.Inside(input.rows - 1 - Y, X) && input.data[input.rows - 1 - Y, X])
      {
        y := y - 1;
        output.data[ry, x] := input.data[y, x];
        ry := ry + 1;
      }
      x := x + 1;
    }
  }

  /** `copyArea`: an offset is covered by the output exactly when the one it comes from is covered by the input. */
  method CopyArea(input: MatrixArea, output: MatrixArea, op: Operation)
    requires input != output && input.data != output.data && input.Valid() && output.Valid() && Empty(output)
    requires IsRotation(op) && input.rows > 0 && input.cols > 0 ==> input.Inside(input.centerY, input.centerX)
    requires if IsRotation(op) then output.rows == output.cols == 2 * Max(input.rows, input.cols)
             else input.rows <= output.rows && input.cols <= output.cols
    modifies output, output.data
    ensures forall o :: output.Covers(o) <==> input.Covers(Origin(op, input.rows, input.cols, o))
  {
    match op {
      case Copy =>
        CopyCells(input, output);
        output.SetCenter(input.centerY, input.centerX);
      case Mirror =>
        MirrorCells(input, output);
        output.SetCenter(input.centerY, input.rows - 1 - input.centerX);
      case Flip =>
        FlipCells(input, output);
        output.SetCenter(input.cols - 1 - input.centerY, input.centerX);
      case _ =>
        Rotate(input, output, op);
    }
  }

  // ----- making areas -----

  /** The list gives the cell row by row. */
  predicate Listed(list: seq<nat>, cols: nat, y: int, x: int) {
    var k := y * cols + x;
    0 <= k < |list| && (list[k] == 1 || list[k] == 3)
  }

  predicate Marks(value: nat) {
    value == 2 || value == 3
  }

  /** The centre is the cell of the last mark among the first `n` entries, or the first cell if there is none. */
  ghost predicate CentreIs(list: seq<nat>, n: nat, cols: nat, cy: int, cx: int)
    requires n <= |list|
  {
    if exists k :: 0 <= k < n && Marks(list[k]) then
      0 <= cx < cols && LastMark(list, n, cy * cols + cx)
    else cy == 0 && cx == 0
  }

  ghost predicate LastMark(list: seq<nat>, n: nat, k: int)
    requires n <= |list|
  {
    0 <= k < n && Marks(list[k]) && forall j :: k < j < n ==> !Marks(list[j])
  }

  predicate Filled(list: seq<nat>, k: int) {
    0 <= k < |list| && (list[k] == 1 || list[k] == 3)
  }

  /** The list has a 1 or a 3 so many columns and rows from its last 2 or 3, within the rows and columns there are. */
  ghost predicate Given(list: seq<nat>, rows: nat, cols: nat, o: Offset) {
    exists cy, cx ::
      CentreIs(list, |list|, cols, cy, cx) && 0 <= cy + o.dy < rows && 0 <= cx + o.dx < cols
      && Filled(list, (cy + o.dy) * cols + cx + o.dx)
  }

  lemma SameCell(cols: nat, y: int, x: int, cy: int, cx: int)
    requires 0 <= x < cols && 0 <= cx < cols && y * cols + x == cy * cols + cx
    ensures y == cy && x == cx
  {
    if y < cy {
      Grows(y + 1, cy, cols);
      NextRow(y, cols);
    }
    if cy < y {
      Grows(cy + 1, y, cols);
      NextRow(cy, cols);
    }
  }

  /** There is one centre. */
  lemma OneCentre(list: seq<nat>, cols: nat, y: int, x: int, cy: int, cx: int)
    requires CentreIs(list, |list|, cols, y, x) && CentreIs(list, |list|, cols, cy, cx)
    ensures y == cy && x == cx
  {
    if exists k :: 0 <= k < |list| && Marks(list[k]) {
      SameCell(cols, y, x, cy, cx);
    }
  }

  lemma Grows(a: int, b: int, cols: nat)
    requires a <= b
    ensures a * cols <= b * cols
  {
  }

  lemma NextRow(y: int, cols: nat)
    ensures y * cols + cols == (y + 1) * cols
  {
  }

  lemma RowOf(rows: nat, cols: nat, y: int, x: int, i: int)
    requires 0 <= x < cols && i == y * cols + x
    ensures 0 <= i < rows * cols ==> 0 <= y < rows
    ensures i == rows * cols ==> y == rows && x == 0
    ensures y * cols + cols == (y + 1) * cols
  {
    NextRow(y, cols);
    if y < 0 {
      Grows(y + 1, 0, cols);
    }
    if y < rows {
      Grows(y + 1, rows, cols);
    } else {
      Grows(rows, y, cols);
      if y > rows {
        NextRow(rows, cols);
        Grows(rows + 1, y, cols);
      }
    }
  }

  lemma Sides(n: nat, rows: nat)
    requires rows > 0 && n % rows == 0
    ensures rows * (n / rows) == n
  {
  }

  /** What has been entered when the list has been read up to row `y`, column `x`. */
  ghost predicate Entered(area: MatrixArea, list: seq<nat>, y: int, x: int)
    requires area.Valid()
    reads area, area.data
  {
    && (forall Y, X :: area.Inside(Y, X) ==> (area.data[Y, X] <==> (Y < y || (Y == y && X < x)) && Listed(list, area.cols, Y, X)))
    && (area.rows > 0 && area.cols > 0 ==> area.Inside(area.centerY, area.centerX))
  }

  method EnterValue(area: MatrixArea, list: seq<nat>, i: nat, y: int, x: int)
    requires area.Valid() && i < |list| && i == y * area.cols + x && area.Inside(y, x) && Entered(area, list, y, x)
    requires CentreIs(list, i, area.cols, area.centerY, area.centerX)
    modifies area, area.data
    ensures Entered(area, list, y, x + 1)
    ensures CentreIs(list, i + 1, area.cols, area.centerY, area.centerX)
  {
    var value := list[i];
    assert Listed(list, area.cols, y, x) <==> value == 1 || value == 3;
    if value == 1 || value == 3 {
      area.data[y, x] := true;
    }
    if value == 2 || value == 3 {
      area.SetCenter(y, x);
    }
  }

  /** `createArea`: 1 and 3 are covered, 2 and 3 are the centre; the last of these counts. */
  method CreateArea(list: seq<nat>, rows: nat) returns (area: MatrixArea)
    requires if rows == 0 then list == [] else |list| % rows == 0
    ensures fresh(area) && fresh(area.data) && area.Valid() && area.rows == rows && area.rows * area.cols == |list|
    ensures forall y, x :: area.Inside(y, x) ==> (area.data[y, x] <==> Listed(list, area.cols, y, x))
    ensures rows > 0 && area.cols > 0 ==> area.Inside(area.centerY, area.centerX)
    ensures CentreIs(list, |list|, area.cols, area.centerY, area.centerX)
    ensures forall o :: area.Covers(o) <==> Given(list, rows, area.cols, o)
  {
    var cols := if rows == 0 then 0 else |list| / rows;
    if rows > 0 {
      Sides(|list|, rows);
    }
    area := new MatrixArea(rows, cols);
    var x, y, i := 0, 0, 0;
    while i < |list|
      invariant area.Valid() && fresh(area) && fresh(area.data) && area.rows == rows && area.cols == cols
      invariant 0 <= i <= |list| && (0 <= x < cols || |list| == 0) && i == y * cols + x
      invariant Entered(area, list, y, x)
      invariant CentreIs(list, i, cols, area.centerY, area.centerX)
      decreases |list| - i
    {
      RowOf(rows, cols, y, x, i);
      EnterValue(area, list, i, y, x);
      x, i := x + 1, i + 1;
      if cols == x {
        x, y := 0, y + 1;
      }
    }
    if |list| > 0 {
      RowOf(rows, cols, y, x, i);
    }
    forall o: Offset | true
      ensures area.Covers(o) <==> Given(list, rows, area.cols, o)
    {
      CoversGiven(area, list, o);
    }
  }

  lemma CoversGiven(area: MatrixArea, list: seq<nat>, o: Offset)
    requires area.Valid() && CentreIs(list, |list|, area.cols, area.centerY, area.centerX)
    requires forall y, x :: area.Inside(y, x) ==> (area.data[y, x] <==> Listed(list, area.cols, y, x))
    ensures area.Covers(o) <==> Given(list, area.rows, area.cols, o)
  {
    if cy, cx :| CentreIs(list, |list|, area.cols, cy, cx) && 0 <= cy + o.dy < area.rows && 0 <= cx + o.dx < area.cols
                 && Filled(list, (cy + o.dy) * area.cols + cx + o.dx) {
      OneCentre(list, area.cols, area.centerY, area.centerX, cy, cx);
    }
  }

  /** An offset is covered by the image exactly when the one it comes from is covered by the area. */
  ghost predicate IsImage(image: MatrixArea, area: MatrixArea, op: Operation)
    requires image.Valid() && area.Valid()
    reads image, image.data, area, area.data
  {
    forall o {:trigger image.Covers(o)} :: image.Covers(o) <==> area.Covers(Origin(op, area.rows, area.cols, o))
  }

  /** A copy in a new square of twice the longer side of `size`. */
  method Image(area: MatrixArea, size: MatrixArea, op: Operation) returns (image: MatrixArea)
    requires area.Valid() && (IsRotation(op) && area.rows > 0 && area.cols > 0 ==> area.Inside(area.centerY, area.centerX))
    requires if IsRotation(op) then size == area else area.rows <= 2 * Max(size.rows, size.cols) && area.cols <= 2 * Max(size.rows, size.cols)
    ensures fresh(image) && fresh(image.data) && image.Valid() && image.rows == image.cols == 2 * Max(size.rows, size.cols)
    ensures IsImage(image, area, op)
  {
    var maxOutput := Max(size.cols, size.rows) * 2;
    image := new MatrixArea(maxOutput, maxOutput);
    CopyArea(area, image, op);
  }

  // ----- what the areas of a spell cover, in terms of the list -----

  predicate FourGivenAt(n: MatrixArea, e: MatrixArea, s: MatrixArea, w: MatrixArea, o: Offset)
    requires n.Valid() && e.Valid() && s.Valid() && w.Valid()
    reads n, n.data, e, e.data, s, s.data, w, w.data
  {
    && (e.Covers(o) <==> n.Covers(Offset(o.dy, -o.dx)))
    && (s.Covers(o) <==> n.Covers(Offset(-o.dx, -o.dy)))
    && (w.Covers(o) <==> n.Covers(Offset(-o.dy, o.dx)))
  }

  /** North is what the list gives; what is in front of a caster there is in front in the other directions too. */
  ghost predicate FourGiven(n: MatrixArea, e: MatrixArea, s: MatrixArea, w: MatrixArea, list: seq<nat>)
    requires n.Valid() && e.Valid() && s.Valid() && w.Valid()
    reads n, n.data, e, e.data, s, s.data, w, w.data
  {
    && (forall o :: n.Covers(o) <==> Given(list, n.rows, n.cols, o))
    && (forall o {:trigger FourGivenAt(n, e, s, w, o)} :: FourGivenAt(n, e, s, w, o))
  }

  lemma FourAreGiven(n: MatrixArea, e: MatrixArea, s: MatrixArea, w: MatrixArea, list: seq<nat>)
    requires n.Valid() && e.Valid() && s.Valid() && w.Valid()
    requires IsImage(e, n, Rotate90) && IsImage(s, n, Rotate180) && IsImage(w, n, Rotate270)
    requires forall o :: n.Covers(o) <==> Given(list, n.rows, n.cols, o)
    ensures FourGiven(n, e, s, w, list)
  {
    forall o | true
      ensures FourGivenAt(n, e, s, w, o)
    {
      assert Origin(Rotate90, n.rows, n.cols, o) == Offset(o.dy, -o.dx);
    }
  }

  predicate CornersGivenAt(nw: MatrixArea, ne: MatrixArea, sw: MatrixArea, se: MatrixArea, o: Offset)
    requires nw.Valid() && ne.Valid() && sw.Valid() && se.Valid()
    reads nw, nw.data, ne, ne.data, sw, sw.data, se, se.data
  {
    && (ne.Covers(o) <==> nw.Covers(Offset(nw.cols - nw.rows - o.dx, o.dy)))
    && (sw.Covers(o) <==> nw.Covers(Offset(o.dx, nw.rows - nw.cols - o.dy)))
    && (se.Covers(o) <==> nw.Covers(Offset(-o.dx, nw.rows - nw.cols - o.dy)))
  }

  /** North-west is what the list gives; the others are its reflections, displaced unless the matrix is a square. */
  ghost predicate CornersGiven(nw: MatrixArea, ne: MatrixArea, sw: MatrixArea, se: MatrixArea, list: seq<nat>)
    requires nw.Valid() && ne.Valid() && sw.Valid() && se.Valid()
    reads nw, nw.data, ne, ne.data, sw, sw.data, se, se.data
  {
    && (forall o :: nw.Covers(o) <==> Given(list, nw.rows, nw.cols, o))
    && (forall o {:trigger CornersGivenAt(nw, ne, sw, se, o)} :: CornersGivenAt(nw, ne, sw, se, o))
  }

  lemma CornersAreGiven(nw: MatrixArea, ne: MatrixArea, sw: MatrixArea, se: MatrixArea, list: seq<nat>)
    requires nw.Valid() && ne.Valid() && sw.Valid() && se.Valid() && sw.rows == sw.cols
    requires IsImage(ne, nw, Mirror) && IsImage(sw, nw, Flip) && IsImage(se, sw, Mirror)
    requires forall o :: nw.Covers(o) <==> Given(list, nw.rows, nw.cols, o)
    ensures CornersGiven(nw, ne, sw, se, list)
  {
    forall o | true
      ensures CornersGivenAt(nw, ne, sw, se, o)
    {
      CornerAt(nw, sw, se, o);
    }
  }

  lemma CornerAt(nw: MatrixArea, sw: MatrixArea, se: MatrixArea, o: Offset)
    requires nw.Valid() && sw.Valid() && se.Valid() && sw.rows == sw.cols && IsImage(sw, nw, Flip) && IsImage(se, sw, Mirror)
    ensures se.Covers(o) <==> nw.Covers(Offset(-o.dx, nw.rows - nw.cols - o.dy))
  {
    assert se.Covers(o) <==> sw.Covers(Offset(-o.dx, o.dy));
  }

  /** A cross around the caster: the list of nine entries with a 3 in the middle. */
  lemma CrossIs(list: seq<nat>, o: Offset)
    requires list == [0, 1, 0, 1, 3, 1, 0, 1, 0]
    ensures Given(list, 3, 3, o) <==> (o.dx == 0 && -1 <= o.dy <= 1) || (o.dy == 0 && -1 <= o.dx <= 1)
  {
    assert LastMark(list, 9, 1 * 3 + 1);
    assert CentreIs(list, 9, 3, 1, 1);
    if cy, cx :| CentreIs(list, 9, 3, cy, cx) && 0 <= cy + o.dy < 3 && 0 <= cx + o.dx < 3 && Filled(list, (cy + o.dy) * 3 + cx + o.dx) {
      OneCentre(list, 3, 1, 1, cy, cx);
    }
    if (o.dx == 0 && -1 <= o.dy <= 1) || (o.dy == 0 && -1 <= o.dx <= 1) {
      assert Filled(list, (1 + o.dy) * 3 + 1 + o.dx);
    }
  }

  // ----- the areas of a spell -----

  datatype Direction = North | East | South | West | SouthWest | SouthEast | NorthWest | NorthEast

  class AreaCombat {
    var areas: map<Direction, MatrixArea>
    var hasExtArea: bool

    constructor ()
      ensures areas == map[] && !hasExtArea
    {
      areas, hasExtArea := map[], false;
    }

    /** `setupArea`: the area for a caster facing north, and its images under the rotations. */
    method SetupArea(list: seq<nat>, rows: nat)
      requires if rows == 0 then list == [] else |list| % rows == 0
      modifies this
      ensures areas.Keys == old(areas.Keys) + {North, East, South, West} && hasExtArea == old(hasExtArea)
      ensures areas[North].Valid() && areas[East].Valid() && areas[South].Valid() && areas[West].Valid()
      ensures areas[North].rows == rows && rows * areas[North].cols == |list|
      ensures forall y, x :: areas[North].Inside(y, x) ==> (areas[North].data[y, x] <==> Listed(list, areas[North].cols, y, x))
      ensures IsImage(areas[South], areas[North], Rotate180) && IsImage(areas[East], areas[North], Rotate90)
      ensures IsImage(areas[West], areas[North], Rotate270)
      ensures FourGiven(areas[North], areas[East], areas[South], areas[West], list)
    {
      var area := CreateArea(list, rows);
      var southArea := Image(area, area, Rotate180);
      var eastArea := Image(area, area, Rotate90);
      var westArea := Image(area, area, Rotate270);
      FourAreGiven(area, eastArea, southArea, westArea, list);
      areas := areas[North := area][South := southArea][East := eastArea][West := westArea];
    }

    /** `setupExtArea`: the area for north-west, and its reflections. */
    method SetupExtArea(list: seq<nat>, rows: nat)
      requires if rows == 0 then list == [] else |list| % rows == 0
      modifies this
      ensures list == [] ==> areas == old(areas) && hasExtArea == old(hasExtArea)
      ensures list != [] ==>
                && areas.Keys == old(areas.Keys) + {NorthWest, NorthEast, SouthWest, SouthEast} && hasExtArea
                && areas[NorthWest].Valid() && areas[NorthEast].Valid() && areas[SouthWest].Valid() && areas[SouthEast].Valid()
                && areas[NorthWest].rows == rows && rows * areas[NorthWest].cols == |list|
      ensures list != [] ==>
                && IsImage(areas[NorthEast], areas[NorthWest], Mirror) && IsImage(areas[SouthWest], areas[NorthWest], Flip)
                && IsImage(areas[SouthEast], areas[SouthWest], Mirror) && areas[SouthWest].rows == areas[SouthWest].cols
      ensures list != [] ==> CornersGiven(areas[NorthWest], areas[NorthEast], areas[SouthWest], areas[SouthEast], list)
    {
      if list == [] {
        return;
      }
      hasExtArea := true;
      var area := CreateArea(list, rows);
      var neArea := Image(area, area, Mirror);
      var swArea := Image(area, area, Flip);
      var seArea := Image(swArea, area, Mirror);
      CornersAreGiven(area, neArea, swArea, seArea, list);
      areas := areas[NorthWest := area][NorthEast := neArea][SouthWest := swArea][SouthEast := seArea];
    }
  }

  /** For a square matrix, the area for south-east is that for north-west turned by half a turn. */
  lemma SouthEastIs(nw: MatrixArea, sw: MatrixArea, se: MatrixArea, o: Offset)
    requires nw.Valid() && sw.Valid() && se.Valid() && IsImage(sw, nw, Flip) && IsImage(se, sw, Mirror) && sw.rows == sw.cols
    ensures se.Covers(o) <==> nw.Covers(Offset(-o.dx, nw.rows - nw.cols - o.dy))
    ensures nw.rows == nw.cols ==> (se.Covers(o) <==> nw.Covers(Turn(Rotate180, o)))
  {
    assert se.Covers(o) <==> sw.Covers(Offset(-o.dx, o.dy));
  }

  // ----- when reflections are exact -----

  predicate Moves(m: MatrixArea, kx: int, ky: int, o: Offset)
    requires m.Valid()
    reads m, m.data
  {
    m.Covers(o) ==> m.Covers(Offset(o.dx + kx, o.dy + ky))
  }

  /** A shape that is the same after moving covers nothing: it would have to go on for ever. */
  lemma {:induction false} NoEndlessShape(m: MatrixArea, kx: int, ky: int, o: Offset)
    requires m.Valid() && (kx != 0 || ky != 0) && m.Covers(o)
    requires forall p: Offset {:trigger Moves(m, kx, ky, p)} :: Moves(m, kx, ky, p)
    ensures false
    decreases if kx > 0 then m.cols - (m.centerX + o.dx) else if kx < 0 then m.centerX + o.dx
              else if ky > 0 then m.rows - (m.centerY + o.dy) else m.centerY + o.dy
  {
    assert Moves(m, kx, ky, o);
    NoEndlessShape(m, kx, ky, Offset(o.dx + kx, o.dy + ky));
  }

  /** What the reflected area covers is covered by the area, reflected. */
  predicate ReflectedAt(m: MatrixArea, op: Operation, o: Offset)
    requires m.Valid()
    reads m, m.data
  {
    m.Covers(Origin(op, m.rows, m.cols, o)) <==> m.Covers(if op.Mirror? then Offset(-o.dx, o.dy) else Offset(o.dx, -o.dy))
  }

  ghost predicate ReflectsExactly(m: MatrixArea, op: Operation)
    requires m.Valid()
    reads m, m.data
  {
    forall o: Offset {:trigger ReflectedAt(m, op, o)} :: ReflectedAt(m, op, o)
  }

  /** A mirrored or flipped area covers the reflected offsets exactly if the matrix is a square, or covers nothing. */
  lemma ReflectsIff(m: MatrixArea, op: Operation)
    requires m.Valid() && (op.Mirror? || op.Flip?)
    ensures ReflectsExactly(m, op) <==> m.rows == m.cols || forall o :: !m.Covers(o)
  {
    if ReflectsExactly(m, op) && m.rows != m.cols {
      var kx, ky := if op.Mirror? then m.cols - m.rows else 0, if op.Mirror? then 0 else m.rows - m.cols;
      forall p: Offset
        ensures Moves(m, kx, ky, p)
      {
        assert ReflectedAt(m, op, if op.Mirror? then Offset(-p.dx, p.dy) else Offset(p.dx, -p.dy));
      }
      forall o | m.Covers(o)
        ensures false
      {
        NoEndlessShape(m, kx, ky, o);
      }
    }
  }

  /** A row of three with its centre on the left covers the tile east of it; mirrored it still does, and not the one in the west. */
  lemma RowMirrorsWrong(nw: MatrixArea, ne: MatrixArea)
    requires nw.Valid() && ne.Valid() && IsImage(ne, nw, Mirror)
    requires nw.rows == 1 && nw.cols == 3 && forall o :: nw.Covers(o) <==> o == Offset(1, 0)
    ensures ne.Covers(Offset(1, 0)) && !ne.Covers(Offset(-1, 0)) && !ReflectsExactly(nw, Mirror)
  {
    assert Origin(Mirror, 1, 3, Offset(1, 0)) == Offset(1, 0) && Origin(Mirror, 1, 3, Offset(-1, 0)) == Offset(3, 0);
    ReflectsIff(nw, Mirror);
    assert nw.Covers(Offset(1, 0));
  }

  // ----- the tiles of an area -----

  predicate Earlier(p: Position, q: Position) {
    p.y < q.y || (p.y == q.y && p.x < q.x)
  }

  predicate InOrder(s: seq<Position>) {
    forall i, j :: 0 <= i < j < |s| ==> Earlier(s[i], s[j])
  }

  /** A tile around the target that the area covers and that can be seen from there. */
  predicate Hit(area: MatrixArea, targetPos: Position, sight: Position -> bool, p: Position)
    requires area.Valid()
    reads area, area.data
  {
    p.z == targetPos.z && area.Covers(Offset(p.x - targetPos.x, p.y - targetPos.y)) && sight(p)
  }

  /** `getList`: the covered tiles in sight of the target, row by row, each once. */
  method GetList(area: MatrixArea, targetPos: Position, sight: Position -> bool) returns (list: seq<Position>)
    requires area.Valid()
    ensures forall p :: p in list <==> Hit(area, targetPos, sight, p)
    ensures InOrder(list)
  {
    list := [];
    var tmpPos := Position(targetPos.x - area.centerX, targetPos.y - area.centerY, targetPos.z);
    ghost var start := tmpPos;
    var y := 0;
    while y < area.rows
      invariant 0 <= y <= area.rows && tmpPos == Position(start.x, start.y + y, start.z)
      invariant forall p :: p in list <==> Hit(area, targetPos, sight, p) && p.y < tmpPos.y
      invariant InOrder(list)
    {
      var x := 0;
      while x < area.cols
        invariant 0 <= x <= area.cols && tmpPos == Position(start.x + x, start.y + y, start.z)
        invariant forall p :: p in list <==> Hit(area, targetPos, sight, p) && Earlier(p, tmpPos)
        invariant InOrder(list)
      {
        if area.data[y, x] && sight(tmpPos) {
          assert Hit(area, targetPos, sight, tmpPos);
          list := list + [tmpPos];
        }
        tmpPos := tmpPos.(x := tmpPos.x + 1);
        x := x + 1;
      }
      tmpPos := tmpPos.(x := tmpPos.x - area.cols, y := tmpPos.y + 1);
      y := y + 1;
    }
  }
}
