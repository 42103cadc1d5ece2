/** The puzzle's cut lines as values: the grid of intersections, the chain of
    tabbed edges along one row or column, and the row and column paths in the
    order the extension adds them, each tied to the stream positions its
    draws come from. */
module Paths {
  import opened Geometry
  import opened RandomDraws
  import opened Tab
  import opened Decimal

  /** Intersection `[row][column]`: `column * puzzle_width / tiles_width`
      across and `row * puzzle_height / tiles_height` down. No intersection
      is displaced. */
  function GridPoint(puzzleWidth: int, puzzleHeight: int, tilesWidth: nat, tilesHeight: nat,
                     row: nat, column: nat): Intersection
    requires 0 < tilesWidth && 0 < tilesHeight
  {
    Intersection(row as real * (puzzleHeight as real / tilesHeight as real),
                 column as real * (puzzleWidth as real / tilesWidth as real))
  }

  /** `tilesHeight + 1` rows of `tilesWidth + 1` intersections each. */
  ghost predicate IsGrid(g: seq<seq<Intersection>>, tilesWidth: nat, tilesHeight: nat)
  {
    |g| == tilesHeight + 1 && forall r :: 0 <= r < |g| ==> |g[r]| == tilesWidth + 1
  }

  function Grid(puzzleWidth: int, puzzleHeight: int, tilesWidth: nat, tilesHeight: nat): (g: seq<seq<Intersection>>)
    requires 0 < tilesWidth && 0 < tilesHeight
    ensures IsGrid(g, tilesWidth, tilesHeight)
    ensures forall r :: 0 <= r <= tilesHeight ==> g[r] == GridRow(puzzleWidth, puzzleHeight, tilesWidth, tilesHeight, r)
  {
    seq(tilesHeight + 1, r requires 0 <= r <= tilesHeight => GridRow(puzzleWidth, puzzleHeight, tilesWidth, tilesHeight, r))
  }

  /** The grid row built one intersection at a time: the next point is the
      one in column `column`, `(row * rowWidth, column * columnWidth)`. */
  lemma GridRowPrefixStep(puzzleWidth: int, puzzleHeight: int, tilesWidth: nat, tilesHeight: nat,
                          row: nat, column: nat, next: nat, columnWidth: real, rowWidth: real, p: Intersection)
    requires 0 < tilesWidth && 0 < tilesHeight && column <= tilesWidth && next == column + 1
    requires columnWidth == puzzleWidth as real / tilesWidth as real
    requires rowWidth == puzzleHeight as real / tilesHeight as real
    requires p == Intersection(row as real * rowWidth, column as real * columnWidth)
    ensures GridRow(puzzleWidth, puzzleHeight, tilesWidth, tilesHeight, row)[..next]
            == GridRow(puzzleWidth, puzzleHeight, tilesWidth, tilesHeight, row)[..column] + [p]
  {
    var ps := GridRow(puzzleWidth, puzzleHeight, tilesWidth, tilesHeight, row);
    assert ps[column] == p;
  }

  /** Row `row` of the grid, columns `0 .. tilesWidth`. */
  function GridRow(puzzleWidth: int, puzzleHeight: int, tilesWidth: nat, tilesHeight: nat, row: nat): (ps: seq<Intersection>)
    requires 0 < tilesWidth && 0 < tilesHeight
    ensures |ps| == tilesWidth + 1
    ensures forall c :: 0 <= c <= tilesWidth ==> ps[c] == GridPoint(puzzleWidth, puzzleHeight, tilesWidth, tilesHeight, row, c)
  {
    seq(tilesWidth + 1, c requires 0 <= c <= tilesWidth => GridPoint(puzzleWidth, puzzleHeight, tilesWidth, tilesHeight, row, c))
  }

  /** The grid spans the puzzle: `[0][0]` is the origin, `[th][tw]` the
      opposite corner `(puzzle_width, puzzle_height)`, and every point is
      `(c * W / tw, r * H / th)`. */
  lemma GridSpansPuzzle(puzzleWidth: int, puzzleHeight: int, tilesWidth: nat, tilesHeight: nat)
    requires 0 < tilesWidth && 0 < tilesHeight
    ensures var g := Grid(puzzleWidth, puzzleHeight, tilesWidth, tilesHeight);
            && g[0][0] == Intersection(0.0, 0.0)
            && g[tilesHeight][tilesWidth] == Intersection(puzzleHeight as real, puzzleWidth as real)
            && forall r, c :: 0 <= r <= tilesHeight && 0 <= c <= tilesWidth ==>
                 g[r][c].column * tilesWidth as real == c as real * puzzleWidth as real
                 && g[r][c].row * tilesHeight as real == r as real * puzzleHeight as real
  {
    var g: seq<seq<Intersection>> := Grid(puzzleWidth, puzzleHeight, tilesWidth, tilesHeight);
    var cw := puzzleWidth as real / tilesWidth as real;
    var rh := puzzleHeight as real / tilesHeight as real;
    assert cw * tilesWidth as real == puzzleWidth as real;
    assert rh * tilesHeight as real == puzzleHeight as real;
    forall r: int, c: int | 0 <= r <= tilesHeight && 0 <= c <= tilesWidth
      ensures g[r][c].column * tilesWidth as real == c as real * puzzleWidth as real
      ensures g[r][c].row * tilesHeight as real == r as real * puzzleHeight as real
    {
      assert g[r][c] == Intersection(r as real * rh, c as real * cw);
      assert c as real * cw * tilesWidth as real == c as real * (cw * tilesWidth as real);
      assert r as real * rh * tilesHeight as real == r as real * (rh * tilesHeight as real);
    }
  }

  /** The edge values one `generateRandomValues` call at `pos` leaves behind:
      `randomJitter15 .. randomJitter12` are draws 14 .. 11 of the call and
      `randomBool9` is draw 23. */
  function SegmentDrawAt(stream: nat -> real, jitterPct: real, pos: nat): SegmentDraw
  {
    SegmentDraw(JitterDraw(stream, jitterPct, pos + 14), JitterDraw(stream, jitterPct, pos + 13),
                JitterDraw(stream, jitterPct, pos + 12), JitterDraw(stream, jitterPct, pos + 11),
                BoolDraw(stream, pos + 23))
  }

  /** An edge reads jitters 15, 14, 13, 12 and boolean 9 of the latest call. */
  lemma SegmentDrawOfCall(stream: nat -> real, jitterPct: real, pos: nat)
    ensures SegmentDrawOf(RandomValuesAt(stream, jitterPct, pos)) == SegmentDrawAt(stream, jitterPct, pos)
  {
  }

  /** The draws for `n` consecutive edges, each preceded by its own
      `generateRandomValues` call; the first call is at `pos`. */
  function DrawsFrom(stream: nat -> real, jitterPct: real, pos: nat, n: nat): (ds: seq<SegmentDraw>)
    ensures |ds| == n
    ensures forall k :: 0 <= k < n ==> ds[k] == SegmentDrawAt(stream, jitterPct, pos + 24 * k)
  {
    seq(n, k requires 0 <= k < n => SegmentDrawAt(stream, jitterPct, pos + 24 * k))
  }

  /** Proof helper: edge `k`'s draws come from the call at `p`, `k` calls
      after `pos`. */
  lemma DrawsFromAt(stream: nat -> real, jitterPct: real, pos: nat, n: nat, k: nat, p: nat)
    requires k < n && p == pos + 24 * k
    ensures DrawsFrom(stream, jitterPct, pos, n)[k] == SegmentDrawAt(stream, jitterPct, p)
  {
  }

  /** The first `n` tabbed edges through `pts`: edge `k` joins `pts[k]` to
      `pts[k + 1]` with `draws[k]`; only edge 0 is the first tile of its path. */
  function Edges(pts: seq<Intersection>, halfTabSizePct: real, draws: seq<SegmentDraw>, n: nat): (es: seq<Segment>)
    requires n < |pts| && n <= |draws|
    ensures |es| == n
    decreases n
  {
    if n == 0 then []
    else Edges(pts, halfTabSizePct, draws, n - 1)
           + [PathDataForLineWithOneTab(n == 1, pts[n - 1], pts[n], halfTabSizePct, draws[n - 1])]
  }

  /** The path data of a sequence of edges, three commands per edge. */
  function Flatten(es: seq<Segment>): (d: seq<PathCommand>)
    ensures |d| == 3 * |es|
  {
    if es == [] then [] else Flatten(es[..|es| - 1]) + es[|es| - 1].Commands()
  }

  /** Appending an edge appends its three commands. */
  lemma FlattenSnoc(es: seq<Segment>, e: Segment)
    ensures Flatten(es + [e]) == Flatten(es) + e.Commands()
  {
    assert (es + [e])[..|es|] == es;
  }

  /** The path data after the first `k` edges of a cut line: nothing yet,
      or the move to the first point followed by those edges. */
  function LinePrefix(pts: seq<Intersection>, halfTabSizePct: real, draws: seq<SegmentDraw>, k: nat): seq<PathCommand>
    requires k < |pts| && k <= |draws|
  {
    if k == 0 then []
    else (if k == 1 then [MoveTo(pts[0])] else LinePrefix(pts, halfTabSizePct, draws, k - 1))
         + PathDataForLineWithOneTab(k == 1, pts[k - 1], pts[k], halfTabSizePct, draws[k - 1]).Commands()
  }

  /** One more edge: a move to the start point `a` if it is the first, then
      the three commands of the edge from `a` to `b` with draws `d`; `next`
      is `k + 1`. */
  lemma LinePrefixStep(pts: seq<Intersection>, halfTabSizePct: real, draws: seq<SegmentDraw>, k: nat, next: nat,
                       prefix: seq<PathCommand>, first: bool, a: Intersection, b: Intersection, d: SegmentDraw)
    requires next == k + 1 && next < |pts| && next <= |draws|
    requires prefix == LinePrefix(pts, halfTabSizePct, draws, k)
    requires first == (k == 0) && a == pts[k] && b == pts[next] && d == draws[k]
    ensures LinePrefix(pts, halfTabSizePct, draws, next)
            == (if first then [MoveTo(a)] else prefix)
               + PathDataForLineWithOneTab(first, a, b, halfTabSizePct, d).Commands()
  {
  }

  lemma AppendAssociative<T>(a: seq<T>, b: seq<T>, c: seq<T>)
    ensures (a + b) + c == a + (b + c)
  {
  }

  /** A sequence one longer than `s` that agrees with `s` and ends in `x`. */
  lemma SnocFromParts<T>(t: seq<T>, s: seq<T>, x: T)
    requires |t| == |s| + 1 && t[|s|] == x
    requires forall i :: 0 <= i < |s| ==> t[i] == s[i]
    ensures t == s + [x]
  {
    assert t == t[..|s|] + [t[|s|]];
  }

  /** After at least one edge the prefix is the move to the first point
      followed by the edges so far. */
  lemma {:induction false} LinePrefixFlat(pts: seq<Intersection>, halfTabSizePct: real, draws: seq<SegmentDraw>, k: nat)
    requires 1 <= k < |pts| && k <= |draws|
    ensures LinePrefix(pts, halfTabSizePct, draws, k) == [MoveTo(pts[0])] + Flatten(Edges(pts, halfTabSizePct, draws, k))
    decreases k
  {
    var es := Edges(pts, halfTabSizePct, draws, k - 1);
    var e := PathDataForLineWithOneTab(k == 1, pts[k - 1], pts[k], halfTabSizePct, draws[k - 1]);
    assert Edges(pts, halfTabSizePct, draws, k) == es + [e];
    FlattenSnoc(es, e);
    if k == 1 {
      assert Flatten(es) == [];
      assert LinePrefix(pts, halfTabSizePct, draws, k) == [MoveTo(pts[0])] + e.Commands();
    } else {
      LinePrefixFlat(pts, halfTabSizePct, draws, k - 1);
      AppendAssociative([MoveTo(pts[0])], Flatten(es), e.Commands());
      assert LinePrefix(pts, halfTabSizePct, draws, k) == LinePrefix(pts, halfTabSizePct, draws, k - 1) + e.Commands();
    }
  }

  /** Proof helper: the prefix after `k` edges, written with another name
      for `k`. */
  lemma LinePrefixAt(pts: seq<Intersection>, halfTabSizePct: real, draws: seq<SegmentDraw>, k: nat, n: nat)
    requires k == n && n < |pts| && n <= |draws|
    ensures LinePrefix(pts, halfTabSizePct, draws, k) == LinePrefix(pts, halfTabSizePct, draws, n)
  {
  }

  /** Edge `k` of the chain joins `pts[k]` to `pts[k + 1]` with `draws[k]`,
      and only edge 0 is drawn as a first tile. */
  lemma {:induction false} EdgesAt(pts: seq<Intersection>, halfTabSizePct: real, draws: seq<SegmentDraw>, n: nat, k: nat)
    requires k < n < |pts| && n <= |draws|
    ensures Edges(pts, halfTabSizePct, draws, n)[k]
            == PathDataForLineWithOneTab(k == 0, pts[k], pts[k + 1], halfTabSizePct, draws[k])
    decreases n
  {
    if k + 1 < n {
      EdgesAt(pts, halfTabSizePct, draws, n - 1, k);
    }
  }

  /** Commands `3k`, `3k + 1`, `3k + 2` of the path data are those of edge `k`. */
  lemma {:induction false} FlattenAt(es: seq<Segment>, k: nat)
    requires k < |es|
    ensures Flatten(es)[3 * k] == es[k].first
    ensures Flatten(es)[3 * k + 1] == es[k].second
    ensures Flatten(es)[3 * k + 2] == es[k].third
    decreases |es|
  {
    var init := es[..|es| - 1];
    if k < |es| - 1 {
      FlattenAt(init, k);
      assert init[k] == es[k];
    }
  }

  lemma PathDataAt(start: Intersection, es: seq<Segment>, k: nat)
    requires k < |es|
    ensures var d := [MoveTo(start)] + Flatten(es);
            d[3 * k + 1] == es[k].first && d[3 * k + 2] == es[k].second && d[3 * k + 3] == es[k].third
  {
    FlattenAt(es, k);
  }

  /** A chain of edges through `pts`: edge `k` ends at `pts[k + 1]`, is made
      of three cubic commands, and opens with `C` exactly when it is edge 0. */
  ghost predicate ChainThrough(es: seq<Segment>, pts: seq<Intersection>)
  {
    && |es| + 1 == |pts|
    && forall k :: 0 <= k < |es| ==>
         && es[k].third.p == pts[k + 1]
         && (es[k].first.CubicTo? <==> k == 0)
         && (es[k].first.SmoothTo? <==> k != 0)
         && es[k].second.CubicTo? && es[k].third.CubicTo?
  }

  lemma EdgesChain(pts: seq<Intersection>, halfTabSizePct: real, draws: seq<SegmentDraw>)
    requires 1 <= |pts| && |pts| - 1 <= |draws|
    ensures ChainThrough(Edges(pts, halfTabSizePct, draws, |pts| - 1), pts)
  {
    var es := Edges(pts, halfTabSizePct, draws, |pts| - 1);
    forall k | 0 <= k < |es|
      ensures es[k].third.p == pts[k + 1]
      ensures es[k].first.CubicTo? <==> k == 0
      ensures es[k].first.SmoothTo? <==> k != 0
      ensures es[k].second.CubicTo? && es[k].third.CubicTo?
    {
      EdgesAt(pts, halfTabSizePct, draws, |pts| - 1, k);
      var r := PathDataForLineWithOneTab(k == 0, pts[k], pts[k + 1], halfTabSizePct, draws[k]);
      assert es[k] == r;
    }
  }

  lemma {:induction false} PathDataShape(es: seq<Segment>, pts: seq<Intersection>)
    requires ChainThrough(es, pts)
    ensures var d := [MoveTo(pts[0])] + Flatten(es);
            && |d| == 1 + 3 * (|pts| - 1)
            && d[0] == MoveTo(pts[0])
            && d[|d| - 1].p == pts[|pts| - 1]
            && (forall k :: 0 <= k < |pts| - 1 ==>
                  d[3 * k + 3].p == pts[k + 1]
                  && (d[3 * k + 1].CubicTo? <==> k == 0)
                  && (d[3 * k + 1].SmoothTo? <==> k != 0)
                  && d[3 * k + 2].CubicTo? && d[3 * k + 3].CubicTo?)
  {
    var d := [MoveTo(pts[0])] + Flatten(es);
    forall k | 0 <= k < |pts| - 1
      ensures d[3 * k + 3].p == pts[k + 1]
      ensures d[3 * k + 1].CubicTo? <==> k == 0
      ensures d[3 * k + 1].SmoothTo? <==> k != 0
      ensures d[3 * k + 2].CubicTo? && d[3 * k + 3].CubicTo?
    {
      PathDataAt(pts[0], es, k);
    }
    if 1 < |pts| {
      PathDataAt(pts[0], es, |pts| - 2);
      assert d[|d| - 1] == d[3 * (|pts| - 2) + 3];
    }
  }

  /** The shape of a cut line through `n + 1` points: a move to the first
      point and `n` edges of three cubic commands; the first edge alone opens
      with `C`, every later one with `S`; edge `k` ends exactly at `pts[k+1]`
      and the line finishes at the last point. */
  lemma LinePathShape(pts: seq<Intersection>, halfTabSizePct: real, draws: seq<SegmentDraw>)
    requires 2 <= |pts| && |pts| - 1 <= |draws|
    ensures var d := LinePrefix(pts, halfTabSizePct, draws, |pts| - 1);
            && |d| == 1 + 3 * (|pts| - 1)
            && d[0] == MoveTo(pts[0])
            && d[|d| - 1].p == pts[|pts| - 1]
            && (forall k :: 0 <= k < |pts| - 1 ==>
                  d[3 * k + 3].p == pts[k + 1]
                  && (d[3 * k + 1].CubicTo? <==> k == 0)
                  && (d[3 * k + 1].SmoothTo? <==> k != 0)
                  && d[3 * k + 2].CubicTo? && d[3 * k + 3].CubicTo?)
  {
    LinePrefixFlat(pts, halfTabSizePct, draws, |pts| - 1);
    EdgesChain(pts, halfTabSizePct, draws);
    PathDataShape(Edges(pts, halfTabSizePct, draws, |pts| - 1), pts);
  }

  /** No gaps: every edge after the first is computed from the very point at
      which the previous edge's last command ends, with the next draw. */
  lemma EdgesContinuous(pts: seq<Intersection>, halfTabSizePct: real, draws: seq<SegmentDraw>, k: nat)
    requires k + 2 < |pts| && |pts| - 1 <= |draws|
    ensures var es := Edges(pts, halfTabSizePct, draws, |pts| - 1);
            es[k + 1] == PathDataForLineWithOneTab(false, es[k].third.p, pts[k + 2], halfTabSizePct, draws[k + 1])
  {
    EdgesAt(pts, halfTabSizePct, draws, |pts| - 1, k);
    EdgesAt(pts, halfTabSizePct, draws, |pts| - 1, k + 1);
  }

  /** The stream position `k` strides of `stride` draws after `pos`. */
  function CallPos(pos: nat, stride: nat, k: nat): (p: nat)
    ensures pos <= p
  {
    if k == 0 then pos else CallPos(pos, stride, k - 1) + stride
  }

  /** Proof helper: one stride more, written with another name for `k + 1`. */
  lemma CallPosStep(pos: nat, stride: nat, k: nat, next: nat)
    requires next == k + 1
    ensures CallPos(pos, stride, next) == CallPos(pos, stride, k) + stride
  {
  }

  lemma {:induction false} CallPosIsLinear(pos: nat, stride: nat, k: nat)
    ensures CallPos(pos, stride, k) == pos + stride * k
  {
    if k > 0 {
      CallPosIsLinear(pos, stride, k - 1);
      assert stride * k == stride * (k - 1) + stride;
    }
  }

  /** The element group a path is added to. */
  datatype Group = Rows | Columns

  /** What `addPath` receives: the group, the name and the path data. The
      name is `row<number>` or `column<number>`, so the number stands for it. */
  datatype NamedPath = NamedPath(group: Group, number: nat, d: seq<PathCommand>)
  {
    function Name(): string
    {
      (if group == Rows then "row" else "column") + NatToString(number)
    }
  }

  /** The intersections a row path visits: left to right on odd rows,
      right to left on even rows. */
  function RowPoints(g: seq<seq<Intersection>>, tilesWidth: nat, row: nat): (ps: seq<Intersection>)
    requires row < |g| && |g[row]| == tilesWidth + 1
    ensures |ps| == tilesWidth + 1
    ensures forall k :: 0 <= k <= tilesWidth ==> ps[k] == g[row][if row % 2 == 0 then tilesWidth - k else k]
  {
    if row % 2 == 0 then seq(tilesWidth + 1, k requires 0 <= k <= tilesWidth => g[row][tilesWidth - k])
    else g[row]
  }

  /** Proof helper: the `k`-th intersection a row path visits is in grid
      column `c`. */
  lemma RowPointsAt(g: seq<seq<Intersection>>, tilesWidth: nat, row: nat, k: nat, c: nat)
    requires row < |g| && |g[row]| == tilesWidth + 1 && k <= tilesWidth
    requires c == if row % 2 == 0 then tilesWidth - k else k
    ensures RowPoints(g, tilesWidth, row)[k] == g[row][c]
  {
  }

  /** One edge of a row path: the walk from column `column` to the next
      column of the walk, with the values of the call at `before`. */
  lemma RowPathStep(g: seq<seq<Intersection>>, tilesWidth: nat, row: nat, halfTabSizePct: real,
                    stream: nat -> real, jitterPct: real, start: nat, k: nat, next: nat,
                    column: int, nextColumn: int, before: nat, prefix: seq<PathCommand>, first: bool)
    requires row < |g| && |g[row]| == tilesWidth + 1 && next == k + 1 && next <= tilesWidth
    requires column == (if row % 2 == 0 then tilesWidth - k else k)
    requires nextColumn == (if row % 2 == 0 then column - 1 else column + 1)
    requires before == start + 24 * k && first == (k == 0)
    requires prefix == LinePrefix(RowPoints(g, tilesWidth, row), halfTabSizePct, DrawsFrom(stream, jitterPct, start, tilesWidth), k)
    ensures 0 <= column <= tilesWidth && 0 <= nextColumn <= tilesWidth
    ensures LinePrefix(RowPoints(g, tilesWidth, row), halfTabSizePct, DrawsFrom(stream, jitterPct, start, tilesWidth), next)
            == (if first then [MoveTo(g[row][column])] else prefix)
               + PathDataForLineWithOneTab(first, g[row][column], g[row][nextColumn], halfTabSizePct,
                                           SegmentDrawOf(RandomValuesAt(stream, jitterPct, before))).Commands()
  {
    var pts := RowPoints(g, tilesWidth, row);
    var draws := DrawsFrom(stream, jitterPct, start, tilesWidth);
    RowPointsAt(g, tilesWidth, row, k, column);
    RowPointsAt(g, tilesWidth, row, next, nextColumn);
    SegmentDrawOfCall(stream, jitterPct, before);
    DrawsFromAt(stream, jitterPct, start, tilesWidth, k, before);
    LinePrefixStep(pts, halfTabSizePct, draws, k, next, prefix, first, g[row][column], g[row][nextColumn],
                   SegmentDrawOf(RandomValuesAt(stream, jitterPct, before)));
  }

  /** Row path `row`, whose own `generateRandomValues` call is at `pos`; its
      edges use the `tilesWidth` calls after it. */
  function RowPath(g: seq<seq<Intersection>>, tilesWidth: nat, row: nat, halfTabSizePct: real,
                   stream: nat -> real, jitterPct: real, pos: nat): NamedPath
    requires row < |g| && |g[row]| == tilesWidth + 1
  {
    NamedPath(Rows, row,
              LinePrefix(RowPoints(g, tilesWidth, row), halfTabSizePct, DrawsFrom(stream, jitterPct, pos + 24, tilesWidth),
                         tilesWidth))
  }

  /** The row paths of rows `1 .. n` in order; row `r`'s call is the
      `r - 1`-th after `pos`, counting `tilesWidth + 1` calls per row. */
  function RowPaths(g: seq<seq<Intersection>>, tilesWidth: nat, halfTabSizePct: real,
                    stream: nat -> real, jitterPct: real, pos: nat, n: nat): (ps: seq<NamedPath>)
    requires n < |g| && forall r :: 0 <= r < |g| ==> |g[r]| == tilesWidth + 1
    ensures |ps| == n
  {
    seq(n, i requires 0 <= i < n =>
      RowPath(g, tilesWidth, i + 1, halfTabSizePct, stream, jitterPct, CallPos(pos, 24 * (tilesWidth + 1), i)))
  }

  /** One more row path extends the list by exactly that path. */
  lemma RowPathsSnoc(g: seq<seq<Intersection>>, tilesWidth: nat, halfTabSizePct: real,
                     stream: nat -> real, jitterPct: real, pos: nat, n: nat, next: nat, row: nat, p: nat)
    requires n + 1 < |g| && (forall r :: 0 <= r < |g| ==> |g[r]| == tilesWidth + 1)
    requires next == n + 1 && row == n + 1 && p == CallPos(pos, 24 * (tilesWidth + 1), n)
    ensures RowPaths(g, tilesWidth, halfTabSizePct, stream, jitterPct, pos, next)
            == RowPaths(g, tilesWidth, halfTabSizePct, stream, jitterPct, pos, n)
               + [RowPath(g, tilesWidth, row, halfTabSizePct, stream, jitterPct, p)]
  {
    SnocFromParts(RowPaths(g, tilesWidth, halfTabSizePct, stream, jitterPct, pos, next),
                  RowPaths(g, tilesWidth, halfTabSizePct, stream, jitterPct, pos, n),
                  RowPath(g, tilesWidth, row, halfTabSizePct, stream, jitterPct, p));
  }

  /** One pass of the row loop, seen from the list of added paths: with `p`
      the call of row `row`, appending its path to `before + RowPaths(.., n)`
      gives `before + RowPaths(.., next)`, and the next row's call comes one
      stride later. */
  lemma RowPathsExtend(g: seq<seq<Intersection>>, tilesWidth: nat, halfTabSizePct: real,
                       stream: nat -> real, jitterPct: real, pos: nat, n: nat, next: nat, row: nat, p: nat,
                       before: seq<NamedPath>)
    requires n + 1 < |g| && (forall r :: 0 <= r < |g| ==> |g[r]| == tilesWidth + 1)
    requires next == n + 1 && row == n + 1 && p == CallPos(pos, 24 * (tilesWidth + 1), n)
    ensures (before + RowPaths(g, tilesWidth, halfTabSizePct, stream, jitterPct, pos, n))
            + [RowPath(g, tilesWidth, row, halfTabSizePct, stream, jitterPct, p)]
            == before + RowPaths(g, tilesWidth, halfTabSizePct, stream, jitterPct, pos, next)
    ensures CallPos(pos, 24 * (tilesWidth + 1), next) == p + 24 * (tilesWidth + 1)
  {
    RowPathsSnoc(g, tilesWidth, halfTabSizePct, stream, jitterPct, pos, n, next, row, p);
    AppendAssociative(before, RowPaths(g, tilesWidth, halfTabSizePct, stream, jitterPct, pos, n),
                      [RowPath(g, tilesWidth, row, halfTabSizePct, stream, jitterPct, p)]);
    CallPosStep(pos, 24 * (tilesWidth + 1), n, next);
  }

  /** The intersections a column path visits: top to bottom, or bottom to
      top when `descending`. */
  function ColumnPoints(g: seq<seq<Intersection>>, tilesHeight: nat, column: nat, descending: bool): (ps: seq<Intersection>)
    requires |g| == tilesHeight + 1 && forall r :: 0 <= r < |g| ==> column < |g[r]|
    ensures |ps| == tilesHeight + 1
    ensures forall k :: 0 <= k <= tilesHeight ==> ps[k] == g[if descending then tilesHeight - k else k][column]
  {
    if descending then seq(tilesHeight + 1, k requires 0 <= k <= tilesHeight => g[tilesHeight - k][column])
    else seq(tilesHeight + 1, k requires 0 <= k <= tilesHeight => g[k][column])
  }

  /** Proof helper: the `k`-th intersection a column path visits is in
      grid row `r`. */
  lemma ColumnPointsAt(g: seq<seq<Intersection>>, tilesHeight: nat, column: nat, descending: bool, k: nat, r: nat)
    requires |g| == tilesHeight + 1 && (forall i :: 0 <= i < |g| ==> column < |g[i]|) && k <= tilesHeight
    requires r == if descending then tilesHeight - k else k
    ensures ColumnPoints(g, tilesHeight, column, descending)[k] == g[r][column]
  {
  }

  /** One edge of a column path: the walk from row `row` to the next row of
      the walk, with the values of the call at `before`. */
  lemma ColumnPathStep(g: seq<seq<Intersection>>, tilesHeight: nat, column: nat, descending: bool, halfTabSizePct: real,
                       stream: nat -> real, jitterPct: real, start: nat, k: nat, next: nat,
                       row: int, nextRow: int, before: nat, prefix: seq<PathCommand>, first: bool)
    requires |g| == tilesHeight + 1 && (forall i :: 0 <= i < |g| ==> column < |g[i]|)
    requires next == k + 1 && next <= tilesHeight
    requires row == (if descending then tilesHeight - k else k)
    requires nextRow == (if descending then row - 1 else row + 1)
    requires before == start + 24 * k && first == (k == 0)
    requires prefix == LinePrefix(ColumnPoints(g, tilesHeight, column, descending), halfTabSizePct,
                                  DrawsFrom(stream, jitterPct, start, tilesHeight), k)
    ensures 0 <= row <= tilesHeight && 0 <= nextRow <= tilesHeight && column < |g[row]| && column < |g[nextRow]|
    ensures LinePrefix(ColumnPoints(g, tilesHeight, column, descending), halfTabSizePct,
                       DrawsFrom(stream, jitterPct, start, tilesHeight), next)
            == (if first then [MoveTo(g[row][column])] else prefix)
               + PathDataForLineWithOneTab(first, g[row][column], g[nextRow][column], halfTabSizePct,
                                           SegmentDrawOf(RandomValuesAt(stream, jitterPct, before))).Commands()
  {
    var pts := ColumnPoints(g, tilesHeight, column, descending);
    var draws := DrawsFrom(stream, jitterPct, start, tilesHeight);
    ColumnPointsAt(g, tilesHeight, column, descending, k, row);
    ColumnPointsAt(g, tilesHeight, column, descending, next, nextRow);
    SegmentDrawOfCall(stream, jitterPct, before);
    DrawsFromAt(stream, jitterPct, start, tilesHeight, k, before);
    LinePrefixStep(pts, halfTabSizePct, draws, k, next, prefix, first, g[row][column], g[nextRow][column],
                   SegmentDrawOf(RandomValuesAt(stream, jitterPct, before)));
  }

  function ColumnPath(g: seq<seq<Intersection>>, tilesHeight: nat, column: nat, descending: bool, halfTabSizePct: real,
                      stream: nat -> real, jitterPct: real, pos: nat): NamedPath
    requires |g| == tilesHeight + 1 && forall r :: 0 <= r < |g| ==> column < |g[r]|
  {
    NamedPath(Columns, column,
              LinePrefix(ColumnPoints(g, tilesHeight, column, descending), halfTabSizePct,
                         DrawsFrom(stream, jitterPct, pos + 24, tilesHeight), tilesHeight))
  }

  /** The value the loop variable `row` holds when the column loop starts:
      the last row path's row, or, with no row paths, the grid loop's last
      row. */
  function RowBeforeColumns(tilesHeight: nat): int
  {
    if 2 <= tilesHeight then tilesHeight - 1 else tilesHeight
  }

  /** The value `row` holds after one column path: 1 after a bottom-to-top
      walk (which the parity test chose because `row` was even), otherwise
      the last row of a top-to-bottom walk. */
  function RowAfterColumnPath(tilesHeight: nat, row: int): int
  {
    if row % 2 == 0 then 1 else tilesHeight - 1
  }

  /** The value of `row` that column `column`'s parity test reads. */
  function LeftoverRow(tilesHeight: nat, column: nat): int
    decreases column
  {
    if column <= 1 then RowBeforeColumns(tilesHeight)
    else RowAfterColumnPath(tilesHeight, LeftoverRow(tilesHeight, column - 1))
  }

  /** Proof helper: the leftover `row` one column later, written with
      another name for `column + 1`. */
  lemma LeftoverRowStep(tilesHeight: nat, column: nat, next: nat)
    requires 1 <= column && next == column + 1
    ensures LeftoverRow(tilesHeight, next) == RowAfterColumnPath(tilesHeight, LeftoverRow(tilesHeight, column))
  {
  }

  predicate ColumnDescends(tilesHeight: nat, column: nat)
  {
    LeftoverRow(tilesHeight, column) % 2 == 0
  }

  /** What the reuse of `row` amounts to: with an even number of tile rows
      every column path runs top to bottom; with an odd number of at least 3
      the odd columns run bottom to top; with a single tile row the even
      columns do. The column number itself is never consulted. */
  lemma {:induction false} ColumnDirectionPattern(tilesHeight: nat, column: nat)
    requires 1 <= tilesHeight && 1 <= column
    ensures ColumnDescends(tilesHeight, column)
            == if tilesHeight % 2 == 0 then false
               else if tilesHeight == 1 then column % 2 == 0
               else column % 2 == 1
    decreases column
  {
    if column > 1 {
      ColumnDirectionPattern(tilesHeight, column - 1);
    }
  }

  /** The column paths of columns `1 .. n` in order, column `c` walking in
      the direction the leftover `row` chooses for it; column `c`'s call is
      the `c - 1`-th after `pos`, counting `tilesHeight + 1` calls per column. */
  function ColumnPaths(g: seq<seq<Intersection>>, tilesWidth: nat, tilesHeight: nat, halfTabSizePct: real,
                       stream: nat -> real, jitterPct: real, pos: nat, n: nat): (ps: seq<NamedPath>)
    requires IsGrid(g, tilesWidth, tilesHeight) && n <= tilesWidth
    ensures |ps| == n
  {
    seq(n, i requires 0 <= i < n =>
      ColumnPath(g, tilesHeight, i + 1, ColumnDescends(tilesHeight, i + 1), halfTabSizePct, stream, jitterPct,
                 CallPos(pos, 24 * (tilesHeight + 1), i)))
  }

  /** One more column path extends the list by exactly that path. */
  lemma ColumnPathsSnoc(g: seq<seq<Intersection>>, tilesWidth: nat, tilesHeight: nat, halfTabSizePct: real,
                        stream: nat -> real, jitterPct: real, pos: nat, n: nat, next: nat, column: nat,
                        descending: bool, p: nat)
    requires IsGrid(g, tilesWidth, tilesHeight) && n < tilesWidth
    requires next == n + 1 && column == n + 1 && descending == ColumnDescends(tilesHeight, column)
    requires p == CallPos(pos, 24 * (tilesHeight + 1), n)
    ensures ColumnPaths(g, tilesWidth, tilesHeight, halfTabSizePct, stream, jitterPct, pos, next)
            == ColumnPaths(g, tilesWidth, tilesHeight, halfTabSizePct, stream, jitterPct, pos, n)
               + [ColumnPath(g, tilesHeight, column, descending, halfTabSizePct, stream, jitterPct, p)]
  {
    SnocFromParts(ColumnPaths(g, tilesWidth, tilesHeight, halfTabSizePct, stream, jitterPct, pos, next),
                  ColumnPaths(g, tilesWidth, tilesHeight, halfTabSizePct, stream, jitterPct, pos, n),
                  ColumnPath(g, tilesHeight, column, descending, halfTabSizePct, stream, jitterPct, p));
  }

  /** One pass of the column loop, seen from the list of added paths: with
      `row` the leftover value column `column` reads and `p` that column's
      call, appending its path to `before + ColumnPaths(.., n)` gives
      `before + ColumnPaths(.., next)`; the next column then reads the
      `row` this walk leaves, and its call comes one stride later. */
  lemma ColumnPathsExtend(g: seq<seq<Intersection>>, tilesWidth: nat, tilesHeight: nat, halfTabSizePct: real,
                          stream: nat -> real, jitterPct: real, pos: nat, n: nat, next: nat, column: nat,
                          row: int, p: nat, before: seq<NamedPath>)
    requires IsGrid(g, tilesWidth, tilesHeight) && n < tilesWidth
    requires next == n + 1 && column == n + 1 && row == LeftoverRow(tilesHeight, column)
    requires p == CallPos(pos, 24 * (tilesHeight + 1), n)
    ensures (before + ColumnPaths(g, tilesWidth, tilesHeight, halfTabSizePct, stream, jitterPct, pos, n))
            + [ColumnPath(g, tilesHeight, column, row % 2 == 0, halfTabSizePct, stream, jitterPct, p)]
            == before + ColumnPaths(g, tilesWidth, tilesHeight, halfTabSizePct, stream, jitterPct, pos, next)
    ensures LeftoverRow(tilesHeight, next + 1) == RowAfterColumnPath(tilesHeight, row)
    ensures CallPos(pos, 24 * (tilesHeight + 1), next) == p + 24 * (tilesHeight + 1)
  {
    var path := ColumnPath(g, tilesHeight, column, row % 2 == 0, halfTabSizePct, stream, jitterPct, p);
    ColumnPathsSnoc(g, tilesWidth, tilesHeight, halfTabSizePct, stream, jitterPct, pos, n, next, column,
                    row % 2 == 0, p);
    AppendAssociative(before, ColumnPaths(g, tilesWidth, tilesHeight, halfTabSizePct, stream, jitterPct, pos, n), [path]);
    LeftoverRowStep(tilesHeight, column, next + 1);
    CallPosStep(pos, 24 * (tilesHeight + 1), n, next);
  }

  /** A row path starts on the left border on odd rows and on the right
      border on even rows, ends on the opposite border, and its `k`-th edge
      ends on the `k + 1`-th intersection of the row in walking order. */
  lemma RowPathShape(g: seq<seq<Intersection>>, tilesWidth: nat, row: nat, halfTabSizePct: real,
                     stream: nat -> real, jitterPct: real, pos: nat)
    requires row < |g| && |g[row]| == tilesWidth + 1 && 1 <= tilesWidth
    ensures var d := RowPath(g, tilesWidth, row, halfTabSizePct, stream, jitterPct, pos).d;
            && |d| == 1 + 3 * tilesWidth
            && d[0] == MoveTo(if row % 2 == 1 then g[row][0] else g[row][tilesWidth])
            && d[|d| - 1].p == (if row % 2 == 1 then g[row][tilesWidth] else g[row][0])
            && forall k :: 0 <= k < tilesWidth ==>
                 d[3 * k + 3].p == g[row][if row % 2 == 1 then k + 1 else tilesWidth - (k + 1)]
  {
    var pts := RowPoints(g, tilesWidth, row);
    LinePathShape(pts, halfTabSizePct, DrawsFrom(stream, jitterPct, pos + 24, tilesWidth));
    assert |pts| - 1 == tilesWidth;
  }

  /** A column path starts at the top (or at the bottom when descending),
      ends at the opposite border, and its `k`-th edge ends on the `k + 1`-th
      intersection of the column in walking order. */
  lemma ColumnPathShape(g: seq<seq<Intersection>>, tilesHeight: nat, column: nat, descending: bool,
                        halfTabSizePct: real, stream: nat -> real, jitterPct: real, pos: nat)
    requires |g| == tilesHeight + 1 && (forall r :: 0 <= r < |g| ==> column < |g[r]|) && 1 <= tilesHeight
    ensures var d := ColumnPath(g, tilesHeight, column, descending, halfTabSizePct, stream, jitterPct, pos).d;
            && |d| == 1 + 3 * tilesHeight
            && d[0] == MoveTo(if descending then g[tilesHeight][column] else g[0][column])
            && d[|d| - 1].p == (if descending then g[0][column] else g[tilesHeight][column])
            && forall k :: 0 <= k < tilesHeight ==>
                 d[3 * k + 3].p == g[if descending then tilesHeight - (k + 1) else k + 1][column]
  {
    var pts := ColumnPoints(g, tilesHeight, column, descending);
    LinePathShape(pts, halfTabSizePct, DrawsFrom(stream, jitterPct, pos + 24, tilesHeight));
    assert |pts| - 1 == tilesHeight;
  }
}
