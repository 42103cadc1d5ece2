/** Everything one run of the effect adds, as a function of the options, the
    stream and the stream position at which the run starts, with the
    properties of that output. */
module Puzzle {
  import opened Geometry
  import opened RandomDraws
  import opened Tab
  import opened Decimal
  import opened Paths

  /** The options after conversion: the tab size and jitter percentages as
      fractions; the tab size is halved on the way. */
  function HalfTabSizePct(tabSize: real): (h: real)
    ensures 2.0 * h * 100.0 == tabSize
  {
    tabSize / 200.0
  }

  function JitterPct(jitter: real): (p: real)
    ensures p * 100.0 == jitter
  {
    jitter / 100.0
  }

  /** Where the row calls begin: after the initial call at `base` and one
      call per grid intersection. */
  function RowsPos(tilesWidth: nat, tilesHeight: nat, base: nat): nat
  {
    CallPos(base + DrawsPerCall, 24 * (tilesWidth + 1), tilesHeight + 1)
  }

  /** Where the column calls begin: after one call per row path and per edge
      of it, for rows `1 .. tilesHeight - 1`. */
  function ColumnsPos(tilesWidth: nat, tilesHeight: nat, base: nat): nat
    requires 1 <= tilesHeight
  {
    CallPos(RowsPos(tilesWidth, tilesHeight, base), 24 * (tilesWidth + 1), tilesHeight - 1)
  }

  /** The stream position after a whole run. */
  function EndPos(tilesWidth: nat, tilesHeight: nat, base: nat): nat
    requires 1 <= tilesWidth && 1 <= tilesHeight
  {
    CallPos(ColumnsPos(tilesWidth, tilesHeight, base), 24 * (tilesHeight + 1), tilesWidth - 1)
  }

  /** A run takes one initial call, one per intersection, one per row or
      column path and one per edge of each, 24 draws per call. */
  lemma {:induction false} DrawCount(tilesWidth: nat, tilesHeight: nat, base: nat)
    requires 1 <= tilesWidth && 1 <= tilesHeight
    ensures EndPos(tilesWidth, tilesHeight, base)
            == base + 24 * (1 + (tilesHeight + 1) * (tilesWidth + 1)
                              + (tilesHeight - 1) * (tilesWidth + 1)
                              + (tilesWidth - 1) * (tilesHeight + 1))
  {
    var rows := RowsPos(tilesWidth, tilesHeight, base);
    var columns := ColumnsPos(tilesWidth, tilesHeight, base);
    CallPosIsLinear(base + DrawsPerCall, 24 * (tilesWidth + 1), tilesHeight + 1);
    CallPosIsLinear(rows, 24 * (tilesWidth + 1), tilesHeight - 1);
    CallPosIsLinear(columns, 24 * (tilesHeight + 1), tilesWidth - 1);
    var x: int, y: int := tilesWidth + 1, tilesHeight + 1;
    ProductSteps(x, y);
  }

  lemma ProductSteps(x: int, y: int)
    ensures (24 * x) * y == 24 * (x * y) && y * x == x * y
    ensures (24 * x) * (y - 2) == 24 * (x * y) - 48 * x && (y - 2) * x == x * y - 2 * x
    ensures (24 * y) * (x - 2) == 24 * (x * y) - 48 * y && (x - 2) * y == x * y - 2 * y
  {
  }

  /** The paths one run adds, in order: the row paths of rows
      `1 .. tilesHeight - 1`, then the column paths of columns
      `1 .. tilesWidth - 1`. */
  function Cuts(puzzleWidth: int, puzzleHeight: int, tilesWidth: nat, tilesHeight: nat,
                tabSize: real, jitter: real, stream: nat -> real, base: nat): (ps: seq<NamedPath>)
    requires 1 <= tilesWidth && 1 <= tilesHeight
    ensures |ps| == (tilesHeight - 1) + (tilesWidth - 1)
  {
    var g := Grid(puzzleWidth, puzzleHeight, tilesWidth, tilesHeight);
    var h := HalfTabSizePct(tabSize);
    var jp := JitterPct(jitter);
    RowPaths(g, tilesWidth, h, stream, jp, RowsPos(tilesWidth, tilesHeight, base), tilesHeight - 1)
    + ColumnPaths(g, tilesWidth, tilesHeight, h, stream, jp, ColumnsPos(tilesWidth, tilesHeight, base),
                  tilesWidth - 1)
  }

  /** The first `rows` paths are the rows, named `row1`, `row2`, ... in order;
      the rest are the columns, named `column1`, `column2`, ... */
  ghost predicate NamedInOrder(ps: seq<NamedPath>, rows: nat)
  {
    && rows <= |ps|
    && (forall i :: 0 <= i < rows ==> ps[i].group == Rows && ps[i].number == i + 1)
    && (forall i :: rows <= i < |ps| ==> ps[i].group == Columns && ps[i].number == i - rows + 1)
  }

  lemma CutsNamed(puzzleWidth: int, puzzleHeight: int, tilesWidth: nat, tilesHeight: nat,
                  tabSize: real, jitter: real, stream: nat -> real, base: nat)
    requires 1 <= tilesWidth && 1 <= tilesHeight
    ensures NamedInOrder(Cuts(puzzleWidth, puzzleHeight, tilesWidth, tilesHeight, tabSize, jitter, stream, base),
                         tilesHeight - 1)
  {
    var g := Grid(puzzleWidth, puzzleHeight, tilesWidth, tilesHeight);
    var h := HalfTabSizePct(tabSize);
    var jp := JitterPct(jitter);
    var rows := RowPaths(g, tilesWidth, h, stream, jp, RowsPos(tilesWidth, tilesHeight, base), tilesHeight - 1);
    var columns := ColumnPaths(g, tilesWidth, tilesHeight, h, stream, jp, ColumnsPos(tilesWidth, tilesHeight, base),
                               tilesWidth - 1);
    var ps := Cuts(puzzleWidth, puzzleHeight, tilesWidth, tilesHeight, tabSize, jitter, stream, base);
    assert ps == rows + columns;
    forall i | 0 <= i < |rows|
      ensures ps[i].group == Rows && ps[i].number == i + 1
    {
      assert ps[i] == rows[i];
    }
    forall i | |rows| <= i < |ps|
      ensures ps[i].group == Columns && ps[i].number == i - |rows| + 1
    {
      assert ps[i] == columns[i - |rows|];
    }
  }

  /** Paths named in that order never share a name. */
  lemma NamesDistinct(ps: seq<NamedPath>, rows: nat)
    requires NamedInOrder(ps, rows)
    ensures forall i, j :: 0 <= i < j < |ps| ==> ps[i].Name() != ps[j].Name()
  {
    forall i, j | 0 <= i < j < |ps|
      ensures ps[i].Name() != ps[j].Name()
    {
      NamesDistinctAt(ps, rows, i, j);
    }
  }

  lemma NamesDistinctAt(ps: seq<NamedPath>, rows: nat, i: nat, j: nat)
    requires NamedInOrder(ps, rows) && i < j < |ps|
    ensures ps[i].Name() != ps[j].Name()
  {
    if j < rows {
      LabelsDistinct("row", i + 1, j + 1);
    } else if rows <= i {
      LabelsDistinct("column", i - rows + 1, j - rows + 1);
    } else {
      assert ps[i].Name()[0] == 'r';
      assert ps[j].Name()[0] == 'c';
    }
  }

  /** No two paths of a run share a name. */
  lemma CutNamesDistinct(puzzleWidth: int, puzzleHeight: int, tilesWidth: nat, tilesHeight: nat,
                         tabSize: real, jitter: real, stream: nat -> real, base: nat)
    requires 1 <= tilesWidth && 1 <= tilesHeight
    ensures var ps := Cuts(puzzleWidth, puzzleHeight, tilesWidth, tilesHeight, tabSize, jitter, stream, base);
            forall i, j :: 0 <= i < j < |ps| ==> ps[i].Name() != ps[j].Name()
  {
    CutsNamed(puzzleWidth, puzzleHeight, tilesWidth, tilesHeight, tabSize, jitter, stream, base);
    NamesDistinct(Cuts(puzzleWidth, puzzleHeight, tilesWidth, tilesHeight, tabSize, jitter, stream, base), tilesHeight - 1);
  }

  /** A 300 x 200 puzzle of 3 x 2 tiles: the middle row of intersections
      lies at y = 100 and x = 0, 100, 200, 300, with no displacement. */
  lemma ThreeByTwoGrid()
    ensures var g := Grid(300, 200, 3, 2);
            && g[1][0] == Intersection(100.0, 0.0) && g[1][1] == Intersection(100.0, 100.0)
            && g[1][2] == Intersection(100.0, 200.0) && g[1][3] == Intersection(100.0, 300.0)
  {
    var g := Grid(300, 200, 3, 2);
    assert g[1] == GridRow(300, 200, 3, 2, 1);
  }

  /** In the same puzzle the one row path (row 1, the first path a run
      adds) ends its three edges on (100, 100), (200, 100) and (300, 100) in
      that order (x before y), whatever the tab size, jitter and draws. */
  lemma ThreeByTwoRowPath(halfTabSizePct: real, stream: nat -> real, jitterPct: real, pos: nat)
    ensures var d := RowPath(Grid(300, 200, 3, 2), 3, 1, halfTabSizePct, stream, jitterPct, pos).d;
            && |d| == 10
            && d[3].p == Intersection(100.0, 100.0)
            && d[6].p == Intersection(100.0, 200.0)
            && d[9].p == Intersection(100.0, 300.0)
  {
    var g := Grid(300, 200, 3, 2);
    var d := RowPath(g, 3, 1, halfTabSizePct, stream, jitterPct, pos).d;
    RowPathShape(g, 3, 1, halfTabSizePct, stream, jitterPct, pos);
    ThreeByTwoGrid();
    assert d[3 * 0 + 3].p == g[1][1];
    assert d[3 * 1 + 3].p == g[1][2];
    assert d[3 * 2 + 3].p == g[1][3];
  }
}
