/** The extension object itself: its options, the random values
    `generateRandomValues` leaves on it, and `effect`, which builds the grid
    and adds the row and column paths one after the other. */
module Jigsaw {
  import opened Geometry
  import opened RandomDraws
  import opened Tab
  import opened Decimal
  import opened Paths
  import opened Puzzle

  /** How `effect` ends: normally, or with the `ZeroDivisionError` that a
      tile count of zero raises when the column and row widths are computed. */
  datatype Outcome = Done | ZeroDivisionError

  class JigsawPuzzle {
    /** The options `puzzle_width`, `puzzle_height`, `tiles_width`,
        `tiles_height`, `tab_size` and `jitter`. */
    const puzzleWidth: int
    const puzzleHeight: int
    const tilesWidth: nat
    const tilesHeight: nat
    const tabSize: real
    const jitter: real
    /** The values `random.random()` returns, from the current state of the
        generator on. */
    const stream: nat -> real

    /** The options derived at the start of `effect`. */
    var halfTabSizePct: real
    var jitterPct: real
    /** How many values have been taken from the stream so far. */
    var drawn: nat
    /** `randomJitter1 .. randomJitter15` and `randomBool1 .. randomBool9` as
        left by the latest `generateRandomValues`. */
    var randomValues: RandomValues
    /** Every path `addPath` has added so far, in order. */
    var addedPaths: seq<NamedPath>

    constructor (puzzleWidth: int, puzzleHeight: int, tilesWidth: nat, tilesHeight: nat,
                 tabSize: real, jitter: real, stream: nat -> real)
      ensures this.puzzleWidth == puzzleWidth && this.puzzleHeight == puzzleHeight
      ensures this.tilesWidth == tilesWidth && this.tilesHeight == tilesHeight
      ensures this.tabSize == tabSize && this.jitter == jitter && this.stream == stream
      ensures drawn == 0 && addedPaths == []
    {
      this.puzzleWidth := puzzleWidth;
      this.puzzleHeight := puzzleHeight;
      this.tilesWidth := tilesWidth;
      this.tilesHeight := tilesHeight;
      this.tabSize := tabSize;
      this.jitter := jitter;
      this.stream := stream;
      halfTabSizePct := 0.0;
      jitterPct := 0.0;
      drawn := 0;
      addedPaths := [];
    }

    /** `generateRandomValues`: fifteen calls of `randomJitter`, then nine of
        `randomBool`, each taking the next draw; every result is stored,
        whether or not anything reads it. */
    method GenerateRandomValues()
      modifies this`drawn, this`randomValues
      ensures randomValues == RandomValuesAt(stream, jitterPct, old(drawn))
      ensures drawn == old(drawn) + DrawsPerCall
      ensures halfTabSizePct == old(halfTabSizePct) && jitterPct == old(jitterPct)
    {
      var pos := drawn;
      var jitter1 := JitterDraw(stream, jitterPct, pos + 0);
      var jitter2 := JitterDraw(stream, jitterPct, pos + 1);
      var jitter3 := JitterDraw(stream, jitterPct, pos + 2);
      var jitter4 := JitterDraw(stream, jitterPct, pos + 3);
      var jitter5 := JitterDraw(stream, jitterPct, pos + 4);
      var jitter6 := JitterDraw(stream, jitterPct, pos + 5);
      var jitter7 := JitterDraw(stream, jitterPct, pos + 6);
      var jitter8 := JitterDraw(stream, jitterPct, pos + 7);
      var jitter9 := JitterDraw(stream, jitterPct, pos + 8);
      var jitter10 := JitterDraw(stream, jitterPct, pos + 9);
      var jitter11 := JitterDraw(stream, jitterPct, pos + 10);
      var jitter12 := JitterDraw(stream, jitterPct, pos + 11);
      var jitter13 := JitterDraw(stream, jitterPct, pos + 12);
      var jitter14 := JitterDraw(stream, jitterPct, pos + 13);
      var jitter15 := JitterDraw(stream, jitterPct, pos + 14);
      var bool1 := BoolDraw(stream, pos + 15);
      var bool2 := BoolDraw(stream, pos + 16);
      var bool3 := BoolDraw(stream, pos + 17);
      var bool4 := BoolDraw(stream, pos + 18);
      var bool5 := BoolDraw(stream, pos + 19);
      var bool6 := BoolDraw(stream, pos + 20);
      var bool7 := BoolDraw(stream, pos + 21);
      var bool8 := BoolDraw(stream, pos + 22);
      var bool9 := BoolDraw(stream, pos + 23);
      randomValues := RandomValues(jitter1, jitter2, jitter3, jitter4, jitter5, jitter6, jitter7, jitter8, jitter9, jitter10, jitter11, jitter12, jitter13, jitter14, jitter15,
                                   bool1, bool2, bool3, bool4, bool5, bool6, bool7, bool8, bool9);
      drawn := pos + DrawsPerCall;
    }

    /** `addPath`: the path joins its group after every path added before it. */
    method AddPath(group: Group, number: nat, d: seq<PathCommand>)
      modifies this`addedPaths
      ensures halfTabSizePct == old(halfTabSizePct) && jitterPct == old(jitterPct)
      ensures drawn == old(drawn)
      ensures addedPaths == old(addedPaths) + [NamedPath(group, number, d)]
    {
      addedPaths := addedPaths + [NamedPath(group, number, d)];
    }

    /** The grid loop: one `generateRandomValues` call per intersection, row
        by row. The returned `row` is the value the loop variable is left
        holding. */
    method BuildIntersections(columnWidth: real, rowWidth: real) returns (intersections: seq<seq<Intersection>>, row: int)
      requires 1 <= tilesWidth && 1 <= tilesHeight
      requires columnWidth == puzzleWidth as real / tilesWidth as real
      requires rowWidth == puzzleHeight as real / tilesHeight as real
      modifies this`drawn, this`randomValues
      ensures halfTabSizePct == old(halfTabSizePct) && jitterPct == old(jitterPct)
      ensures addedPaths == old(addedPaths)
      ensures intersections == Grid(puzzleWidth, puzzleHeight, tilesWidth, tilesHeight)
      ensures row == tilesHeight
      ensures drawn == CallPos(old(drawn), 24 * (tilesWidth + 1), tilesHeight + 1)
    {
      ghost var start := drawn;
      intersections := [];
      row := 0;
      var k := 0;
      while k <= tilesHeight
        invariant 0 <= k <= tilesHeight + 1
        invariant |intersections| == k
        invariant forall r :: 0 <= r < k ==>
                    intersections[r] == GridRow(puzzleWidth, puzzleHeight, tilesWidth, tilesHeight, r)
        invariant drawn == CallPos(start, 24 * (tilesWidth + 1), k)
        invariant 0 < k ==> row == k - 1
      {
        row := k;
        var next := k + 1;
        intersections := intersections + [[]];
        intersections := FillGridRow(intersections, row, columnWidth, rowWidth);
        CallPosStep(start, 24 * (tilesWidth + 1), k, next);
        k := next;
      }
    }

    /** The inner grid loop: one call and one intersection per column,
        appended to row `row`, which is still empty. */
    method FillGridRow(intersections: seq<seq<Intersection>>, row: nat, columnWidth: real, rowWidth: real)
      returns (filled: seq<seq<Intersection>>)
      requires 1 <= tilesWidth && 1 <= tilesHeight
      requires columnWidth == puzzleWidth as real / tilesWidth as real
      requires rowWidth == puzzleHeight as real / tilesHeight as real
      requires row < |intersections| && intersections[row] == []
      modifies this`drawn, this`randomValues
      ensures halfTabSizePct == old(halfTabSizePct) && jitterPct == old(jitterPct)
      ensures addedPaths == old(addedPaths)
      ensures filled == intersections[row := GridRow(puzzleWidth, puzzleHeight, tilesWidth, tilesHeight, row)]
      ensures drawn == old(drawn) + 24 * (tilesWidth + 1)
    {
      ghost var start := drawn;
      filled := intersections;
      var column := 0;
      while column <= tilesWidth
        invariant 0 <= column <= tilesWidth + 1
        invariant filled == intersections[row := GridRow(puzzleWidth, puzzleHeight, tilesWidth, tilesHeight, row)[..column]]
        invariant drawn == start + 24 * column
      {
        var next := column + 1;
        GenerateRandomValues();
        var p := Intersection(row as real * rowWidth, column as real * columnWidth);
        GridRowPrefixStep(puzzleWidth, puzzleHeight, tilesWidth, tilesHeight, row, column, next, columnWidth, rowWidth, p);
        filled := filled[row := filled[row] + [p]];
        column := next;
      }
      assert GridRow(puzzleWidth, puzzleHeight, tilesWidth, tilesHeight, row)[..column]
             == GridRow(puzzleWidth, puzzleHeight, tilesWidth, tilesHeight, row);
    }

    /** One pass of the row loop: a call of its own, then the row's path data,
        added as `row<row>`. */
    method AddRowPath(intersections: seq<seq<Intersection>>, row: nat)
      requires row < |intersections| && |intersections[row]| == tilesWidth + 1 && 1 <= tilesWidth
      modifies this`drawn, this`randomValues, this`addedPaths
      ensures halfTabSizePct == old(halfTabSizePct) && jitterPct == old(jitterPct)
      ensures addedPaths == old(addedPaths) + [RowPath(intersections, tilesWidth, row, halfTabSizePct, stream, jitterPct, old(drawn))]
      ensures drawn == old(drawn) + 24 * (tilesWidth + 1)
    {
      GenerateRandomValues();
      var pathData := RowPathData(intersections, row);
      AddPath(Rows, row, pathData);
    }

    /** The inner row loop: one call and one tabbed edge per column, walking
        left to right on odd rows and right to left on even rows. */
    method RowPathData(intersections: seq<seq<Intersection>>, row: nat) returns (pathData: seq<PathCommand>)
      requires row < |intersections| && |intersections[row]| == tilesWidth + 1 && 1 <= tilesWidth
      modifies this`drawn, this`randomValues
      ensures halfTabSizePct == old(halfTabSizePct) && jitterPct == old(jitterPct)
      ensures addedPaths == old(addedPaths)
      ensures pathData == LinePrefix(RowPoints(intersections, tilesWidth, row), halfTabSizePct,
                                     DrawsFrom(stream, jitterPct, old(drawn), tilesWidth), tilesWidth)
      ensures drawn == old(drawn) + 24 * tilesWidth
    {
      ghost var pts := RowPoints(intersections, tilesWidth, row);
      ghost var draws := DrawsFrom(stream, jitterPct, drawn, tilesWidth);
      ghost var start := drawn;
      var nextColumnDirection := 1;
      if row % 2 == 0 {
        nextColumnDirection := -1;
      }
      var firstColumn := true;
      pathData := [];
      var k := 0;
      while k < tilesWidth
        invariant 0 <= k <= tilesWidth
        invariant firstColumn == (k == 0)
        invariant drawn == start + 24 * k
        invariant pathData == LinePrefix(pts, halfTabSizePct, draws, k)
      {
        var column := if row % 2 == 0 then tilesWidth - k else k;
        var nextColumn := column + nextColumnDirection;
        var next := k + 1;
        ghost var before, prefix := drawn, pathData;
        RowPathStep(intersections, tilesWidth, row, halfTabSizePct, stream, jitterPct, start, k, next,
                    column, nextColumn, before, prefix, firstColumn);
        GenerateRandomValues();
        if firstColumn {
          pathData := [MoveTo(intersections[row][column])];
        }
        var segment := PathDataForLineWithOneTab(firstColumn, intersections[row][column],
                                                 intersections[row][nextColumn], halfTabSizePct,
                                                 SegmentDrawOf(randomValues));
        pathData := pathData + segment.Commands();
        k := next;
        firstColumn := false;
      }
      LinePrefixAt(pts, halfTabSizePct, draws, k, tilesWidth);
    }

    /** One pass of the column loop: a call of its own, then the column's
        path data, added as `column<column>`. The direction is decided by the
        parity of `leftoverRow`, the value the loop variable `row` still holds
        from the previous loop; the new value of `row` is returned. */
    method AddColumnPath(intersections: seq<seq<Intersection>>, column: nat, leftoverRow: int) returns (row: int)
      requires IsGrid(intersections, tilesWidth, tilesHeight) && column <= tilesWidth && 1 <= tilesHeight
      modifies this`drawn, this`randomValues, this`addedPaths
      ensures halfTabSizePct == old(halfTabSizePct) && jitterPct == old(jitterPct)
      ensures addedPaths == old(addedPaths) + [ColumnPath(intersections, tilesHeight, column, leftoverRow % 2 == 0,
                                                          halfTabSizePct, stream, jitterPct, old(drawn))]
      ensures row == RowAfterColumnPath(tilesHeight, leftoverRow)
      ensures drawn == old(drawn) + 24 * (tilesHeight + 1)
    {
      GenerateRandomValues();
      var descending := leftoverRow % 2 == 0;
      var pathData;
      pathData, row := ColumnPathData(intersections, column, descending);
      AddPath(Columns, column, pathData);
    }

    /** The inner column loop: one call and one tabbed edge per row, walking
        top to bottom, or bottom to top when `descending`. The returned `row`
        is the last row the loop visited. */
    method ColumnPathData(intersections: seq<seq<Intersection>>, column: nat, descending: bool)
      returns (pathData: seq<PathCommand>, row: int)
      requires IsGrid(intersections, tilesWidth, tilesHeight) && column <= tilesWidth && 1 <= tilesHeight
      modifies this`drawn, this`randomValues
      ensures halfTabSizePct == old(halfTabSizePct) && jitterPct == old(jitterPct)
      ensures addedPaths == old(addedPaths)
      ensures pathData == LinePrefix(ColumnPoints(intersections, tilesHeight, column, descending), halfTabSizePct,
                                     DrawsFrom(stream, jitterPct, old(drawn), tilesHeight), tilesHeight)
      ensures row == if descending then 1 else tilesHeight - 1
      ensures drawn == old(drawn) + 24 * tilesHeight
    {
      ghost var pts := ColumnPoints(intersections, tilesHeight, column, descending);
      ghost var draws := DrawsFrom(stream, jitterPct, drawn, tilesHeight);
      ghost var start := drawn;
      var nextRowDirection := 1;
      if descending {
        nextRowDirection := -1;
      }
      var firstRow := true;
      pathData := [];
      row := 0;
      var k := 0;
      while k < tilesHeight
        invariant 0 <= k <= tilesHeight
        invariant firstRow == (k == 0)
        invariant drawn == start + 24 * k
        invariant pathData == LinePrefix(pts, halfTabSizePct, draws, k)
        invariant 0 < k ==> row == if descending then tilesHeight + 1 - k else k - 1
      {
        row := if descending then tilesHeight - k else k;
        var nextRow := row + nextRowDirection;
        var next := k + 1;
        assert row == if descending then tilesHeight + 1 - next else next - 1;
        ghost var before, prefix := drawn, pathData;
        ColumnPathStep(intersections, tilesHeight, column, descending, halfTabSizePct, stream, jitterPct, start, k, next,
                       row, nextRow, before, prefix, firstRow);
        GenerateRandomValues();
        if firstRow {
          pathData := [MoveTo(intersections[row][column])];
        }
        var segment := PathDataForLineWithOneTab(firstRow, intersections[row][column],
                                                 intersections[nextRow][column], halfTabSizePct,
                                                 SegmentDrawOf(randomValues));
        pathData := pathData + segment.Commands();
        k := next;
        firstRow := false;
      }
      LinePrefixAt(pts, halfTabSizePct, draws, k, tilesHeight);
    }

    /** `effect`: convert the options, take the initial call, build the grid,
        then add the row paths of rows `1 .. tiles_height - 1` and the column
        paths of columns `1 .. tiles_width - 1`. A tile count of zero stops the
        run with a `ZeroDivisionError` right after the initial call. */
    method Effect() returns (outcome: Outcome)
      modifies this`halfTabSizePct, this`jitterPct, this`drawn, this`randomValues, this`addedPaths
      ensures halfTabSizePct == HalfTabSizePct(tabSize) && jitterPct == JitterPct(jitter)
      ensures tilesWidth == 0 || tilesHeight == 0 ==>
                && outcome == ZeroDivisionError
                && addedPaths == old(addedPaths)
                && drawn == old(drawn) + DrawsPerCall
      ensures 1 <= tilesWidth && 1 <= tilesHeight ==>
                && outcome == Done
                && addedPaths == old(addedPaths) + Cuts(puzzleWidth, puzzleHeight, tilesWidth, tilesHeight,
                                                        tabSize, jitter, stream, old(drawn))
                && drawn == EndPos(tilesWidth, tilesHeight, old(drawn))
    {
      halfTabSizePct := HalfTabSizePct(tabSize);
      jitterPct := JitterPct(jitter);
      GenerateRandomValues();
      if tilesWidth == 0 || tilesHeight == 0 {
        return ZeroDivisionError;
      }
      var columnWidth := puzzleWidth as real / tilesWidth as real;
      var rowWidth := puzzleHeight as real / tilesHeight as real;
      DrawCuts(columnWidth, rowWidth, old(drawn));
      return Done;
    }

    /** The rest of `effect` once the initial call at `base` is taken: the
        grid, then the row paths, then the column paths. */
    method DrawCuts(columnWidth: real, rowWidth: real, ghost base: nat)
      requires 1 <= tilesWidth && 1 <= tilesHeight
      requires columnWidth == puzzleWidth as real / tilesWidth as real
      requires rowWidth == puzzleHeight as real / tilesHeight as real
      requires halfTabSizePct == HalfTabSizePct(tabSize) && jitterPct == JitterPct(jitter)
      requires drawn == base + DrawsPerCall
      modifies this`drawn, this`randomValues, this`addedPaths
      ensures halfTabSizePct == old(halfTabSizePct) && jitterPct == old(jitterPct)
      ensures addedPaths == old(addedPaths) + Cuts(puzzleWidth, puzzleHeight, tilesWidth, tilesHeight,
                                                   tabSize, jitter, stream, base)
      ensures drawn == EndPos(tilesWidth, tilesHeight, base)
    {
      var intersections, row := BuildIntersections(columnWidth, rowWidth);
      ghost var g := Grid(puzzleWidth, puzzleHeight, tilesWidth, tilesHeight);
      ghost var h, jp := HalfTabSizePct(tabSize), JitterPct(jitter);
      assert drawn == RowsPos(tilesWidth, tilesHeight, base);
      ghost var rows := RowPaths(g, tilesWidth, h, stream, jp, RowsPos(tilesWidth, tilesHeight, base), tilesHeight - 1);
      row := AddRowPaths(intersections, row);
      assert drawn == ColumnsPos(tilesWidth, tilesHeight, base);
      assert addedPaths == old(addedPaths) + rows;
      ghost var columns := ColumnPaths(g, tilesWidth, tilesHeight, h, stream, jp,
                                       ColumnsPos(tilesWidth, tilesHeight, base), tilesWidth - 1);
      AddColumnPaths(intersections, row);
      AppendAssociative(old(addedPaths), rows, columns);
    }

    /** The row loop of `effect`: the row paths of rows `1 .. tiles_height - 1`.
        The loop variable `row` keeps its value from the grid loop when there
        are no rows to cut, and is returned. */
    method AddRowPaths(intersections: seq<seq<Intersection>>, leftoverRow: int) returns (row: int)
      requires 1 <= tilesWidth && 1 <= tilesHeight
      requires IsGrid(intersections, tilesWidth, tilesHeight)
      modifies this`drawn, this`randomValues, this`addedPaths
      ensures halfTabSizePct == old(halfTabSizePct) && jitterPct == old(jitterPct)
      ensures row == if 2 <= tilesHeight then tilesHeight - 1 else leftoverRow
      ensures addedPaths == old(addedPaths) + RowPaths(intersections, tilesWidth, halfTabSizePct, stream, jitterPct,
                                                       old(drawn), tilesHeight - 1)
      ensures drawn == CallPos(old(drawn), 24 * (tilesWidth + 1), tilesHeight - 1)
    {
      ghost var start := drawn;
      row := leftoverRow;
      var k := 0;
      while k < tilesHeight - 1
        invariant 0 <= k <= tilesHeight - 1
        invariant row == if k == 0 then leftoverRow else k
        invariant drawn == CallPos(start, 24 * (tilesWidth + 1), k)
        invariant addedPaths == old(addedPaths) + RowPaths(intersections, tilesWidth, halfTabSizePct, stream, jitterPct, start, k)
      {
        row := k + 1;
        AddNextRowPath(intersections, start, old(addedPaths), k);
        k := k + 1;
      }
    }

    /** Pass `k` of the row loop: the path of row `k + 1`, appended after the
        paths of the rows before it. */
    method AddNextRowPath(intersections: seq<seq<Intersection>>, ghost start: nat, ghost before: seq<NamedPath>, k: nat)
      requires IsGrid(intersections, tilesWidth, tilesHeight) && k + 1 < tilesHeight && 1 <= tilesWidth
      requires drawn == CallPos(start, 24 * (tilesWidth + 1), k)
      requires addedPaths == before + RowPaths(intersections, tilesWidth, halfTabSizePct, stream, jitterPct, start, k)
      modifies this`drawn, this`randomValues, this`addedPaths
      ensures halfTabSizePct == old(halfTabSizePct) && jitterPct == old(jitterPct)
      ensures drawn == CallPos(start, 24 * (tilesWidth + 1), k + 1)
      ensures addedPaths == before + RowPaths(intersections, tilesWidth, halfTabSizePct, stream, jitterPct, start, k + 1)
    {
      var row := k + 1;
      var next := k + 1;
      RowPathsExtend(intersections, tilesWidth, halfTabSizePct, stream, jitterPct, start, k, next, row, drawn, before);
      AddRowPath(intersections, row);
    }

    /** The column loop of `effect`: the column paths of columns
        `1 .. tiles_width - 1`, each walking in the direction the parity of
        the leftover `row` chooses. */
    method AddColumnPaths(intersections: seq<seq<Intersection>>, leftoverRow: int)
      requires 1 <= tilesWidth && 1 <= tilesHeight
      requires IsGrid(intersections, tilesWidth, tilesHeight)
      requires leftoverRow == RowBeforeColumns(tilesHeight)
      modifies this`drawn, this`randomValues, this`addedPaths
      ensures halfTabSizePct == old(halfTabSizePct) && jitterPct == old(jitterPct)
      ensures addedPaths == old(addedPaths) + ColumnPaths(intersections, tilesWidth, tilesHeight, halfTabSizePct, stream,
                                                          jitterPct, old(drawn), tilesWidth - 1)
      ensures drawn == CallPos(old(drawn), 24 * (tilesHeight + 1), tilesWidth - 1)
    {
      ghost var start := drawn;
      var row := leftoverRow;
      var k := 0;
      while k < tilesWidth - 1
        invariant 0 <= k <= tilesWidth - 1
        invariant row == LeftoverRow(tilesHeight, k + 1)
        invariant drawn == CallPos(start, 24 * (tilesHeight + 1), k)
        invariant addedPaths == old(addedPaths) + ColumnPaths(intersections, tilesWidth, tilesHeight, halfTabSizePct, stream,
                                                              jitterPct, start, k)
      {
        row := AddNextColumnPath(intersections, start, old(addedPaths), k, row);
        k := k + 1;
      }
      assert k == tilesWidth - 1 && start == old(drawn);
    }

    /** Pass `k` of the column loop: the path of column `k + 1`, appended
        after the paths of the columns before it. */
    method AddNextColumnPath(intersections: seq<seq<Intersection>>, ghost start: nat, ghost before: seq<NamedPath>,
                             k: nat, leftoverRow: int) returns (row: int)
      requires IsGrid(intersections, tilesWidth, tilesHeight) && k < tilesWidth && 1 <= tilesHeight
      requires leftoverRow == LeftoverRow(tilesHeight, k + 1)
      requires drawn == CallPos(start, 24 * (tilesHeight + 1), k)
      requires addedPaths == before + ColumnPaths(intersections, tilesWidth, tilesHeight, halfTabSizePct, stream,
                                                  jitterPct, start, k)
      modifies this`drawn, this`randomValues, this`addedPaths
      ensures halfTabSizePct == old(halfTabSizePct) && jitterPct == old(jitterPct)
      ensures row == LeftoverRow(tilesHeight, k + 2)
      ensures drawn == CallPos(start, 24 * (tilesHeight + 1), k + 1)
      ensures addedPaths == before + ColumnPaths(intersections, tilesWidth, tilesHeight, halfTabSizePct, stream,
                                                 jitterPct, start, k + 1)
    {
      var column := k + 1;
      var next := k + 1;
      ColumnPathsExtend(intersections, tilesWidth, tilesHeight, halfTabSizePct, stream, jitterPct, start, k, next,
                        column, leftoverRow, drawn, before);
      row := AddColumnPath(intersections, column, leftoverRow);
    }
  }
}
