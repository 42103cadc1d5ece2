# Jigsaw puzzle cut lines

This project models the core of the Inkscape extension `jigsaw_puzzle.py`. The
extension draws the cut lines of a jigsaw puzzle over a grid of
`tiles_width` x `tiles_height` tiles. Each interior row of grid intersections
becomes one SVG path named `row<n>`. Each interior column becomes a path named
`column<n>`. Every edge of an interior row or column, between two
neighbouring intersections, is drawn as three cubic Bezier commands that form
one tab, bent by random jitter and pointing to a random side. The four border
edges carry no tabs: the border is one plain rectangle.

The model is split by how the source is written:

- `geometry.dfy` (module `Geometry`): the intersection record and
  `pointAlongLine`, kept as pure functions. The offset follows the code's own
  convention: x moves by `diffY * off` and y by `diffX * off`.
- `draws.dfy` (module `RandomDraws`): `randomBool`, `randomJitter` and what
  one `generateRandomValues` call stores. Python's generator is replaced by
  the stream of values `random.random()` would return (`stream: nat -> real`).
  `random.uniform(a, b)` is `a + (b - a) * u`.
- `tab.dfy` (module `Tab`): `pathDataForLineWithOneTab` as a pure function
  from the two end points, the half tab size and the five values it reads
  (`randomJitter15`, `14`, `13`, `12` and `randomBool9`) to three path commands.
- `decimal.dfy` (module `Decimal`): `str` on the row and column numbers used
  in the path labels.
- `paths.dfy` (module `Paths`): the grid and the row and column paths as
  values, each tied to the stream positions its draws come from.
- `puzzle.dfy` (module `Puzzle`): the option conversion and the whole output
  of one run (`Cuts`), with its properties.
- `jigsaw.dfy` (module `Jigsaw`): the extension object as a class. Its fields
  are the options, the derived percentages, the stored random values, the
  number of draws taken so far and the paths added so far. `effect`,
  `generateRandomValues` and the nested loops of `effect` are methods with
  loops. Each method is proved equal to the specification functions of
  `Paths` and `Puzzle`.

Facts about the behaviour that the proofs pin down:

- A run takes one `generateRandomValues` call at the start, one per grid
  intersection, one per row or column path and one per edge of each. That is
  24 draws per call (`Puzzle.DrawCount`).
- Row paths run left to right on odd rows and right to left on even rows.
- The direction of a column path is not chosen by the column's parity. The
  test at line 115 reads `row`, which still holds the last value of an
  earlier loop. The outcome is proved as `Paths.ColumnDirectionPattern`:
  - with an even number of tile rows, every column path runs top to bottom;
  - with an odd number of at least three, odd columns run bottom to top;
  - with a single tile row, even columns do.
- Nothing validates the options. For non-negative tile counts, the only
  failure is a zero tile count, which raises `ZeroDivisionError` at line 74
  or 75. This happens after the initial `generateRandomValues` call and
  before any path is added (`Jigsaw.JigsawPuzzle.Effect`). Negative counts
  are not modelled (see "## Left out").
- The offset of `pointAlongLine` swaps the two components of the edge vector
  and keeps both signs. On a horizontal (row) edge this is the edge turned by
  +90 degrees, with the turn `(x, y) |-> (-y, x)`. On a vertical (column)
  edge it is the edge turned by -90 degrees. Row tabs and column tabs
  therefore bend with opposite senses for the same direction flag
  (`Geometry.OffsetTurnsOppositeWays`). On a slanted edge the offset is not
  perpendicular at all (`Geometry.OffsetPerpendicularIffAxisAligned`), but
  the grid has no slanted edges.

Path data is modelled as a sequence of commands over points (`M p`,
`C c1,c2,p`, `S c2,p`) rather than as text. In the text, every point is
written x first, then y.

## Model

| member | source | states |
|---|---|---|
| `Geometry.PointAlongLine` | jigsaw_puzzle.py:191-197 | the point `start + diff * along + (diffY, diffX) * off`: x is `start.x + diffX * along + diffY * off`, y is `start.y + diffY * along + diffX * off` (a point, not its text) |
| `Geometry.PointAlongLineEndpoints` | jigsaw_puzzle.py:191-197 | 0 along and 0 off is the start point; 1 along and 0 off is the end point |
| `Geometry.PointAlongLineDecomposition` | jigsaw_puzzle.py:191-197 | the point is the start, plus the edge vector times `along`, plus the component-swapped edge vector times `off` |
| `Geometry.PointAlongLineReversed` | jigsaw_puzzle.py:191-197 | walking the edge backwards with `1 - along` and `-off` gives the same point |
| `Geometry.PointAlongLineMirror` | jigsaw_puzzle.py:191-197 | negating the offset reflects the point through the on-line point at the same `along` |
| `Geometry.PointAlongLineShift` | jigsaw_puzzle.py:191-197 | two points with the same offset differ by the edge vector times the difference of their `along` values |
| `Geometry.OffsetPerpendicularIffAxisAligned` | jigsaw_puzzle.py:193-196 | the offset's dot product with the edge is `2 * off * dx * dy`; it is zero exactly when the offset is zero or the edge is horizontal or vertical |
| `Geometry.OffsetTurnsOppositeWays` | jigsaw_puzzle.py:193-196 | on a horizontal edge the offset is `+off` times the edge turned by +90 degrees; on a vertical edge it is `-off` times that turn |
| `RandomDraws.Uniform` | jigsaw_puzzle.py:228-229 | `random.uniform(a, b)` on the draw `u`: `a + (b - a) * u` |
| `RandomDraws.RandomBool` | jigsaw_puzzle.py:9-10 | `randomBool()`: true when the draw exceeds one half |
| `RandomDraws.JitterDraw` | jigsaw_puzzle.py:228-229 | `randomJitter()` at stream position `i`: a uniform value between `-jitterPct` and `jitterPct` |
| `RandomDraws.BoolDraw` | jigsaw_puzzle.py:9-10 | `randomBool()` at stream position `i` |
| `RandomDraws.RandomValuesAt` | jigsaw_puzzle.py:199-226 | the 15 jitters and 9 booleans one call stores when it starts at stream position `pos`, in the order of the assignments |
| `RandomDraws.RandomValues.Jitter` | jigsaw_puzzle.py:203-217 | the attribute `randomJitterk` |
| `RandomDraws.RandomValues.Bool` | jigsaw_puzzle.py:218-226 | the attribute `randomBoolk` |
| `RandomDraws.RandomValuesOrder` | jigsaw_puzzle.py:199-226 | `randomJitterk` is draw `k - 1` of the call and `randomBoolk` is draw `15 + k - 1`; 15 + 9 = 24 draws per call |
| `RandomDraws.UniformWithin` | jigsaw_puzzle.py:228-229 | `uniform(-p, p)` on a unit draw stays within `[-p, p]` when `p >= 0` |
| `RandomDraws.JittersWithin` | jigsaw_puzzle.py:203-217 | with draws in [0, 1) and a non-negative jitter bound, every stored jitter lies within plus or minus `jitterPct` |
| `RandomDraws.ZeroJitterValues` | jigsaw_puzzle.py:228-229 | with a jitter of 0 every stored jitter is exactly 0, whatever the draws |
| `Decimal.DigitChar` | jigsaw_puzzle.py:107 | a digit below 10 becomes the character whose code is `'0'` plus the digit |
| `Decimal.NatToString` | jigsaw_puzzle.py:107 | `str(n)` is non-empty, all decimal digits, and starts with `0` only for 0 |
| `Decimal.ParseNatToString` | jigsaw_puzzle.py:107 | reading the digits of `str(n)` back gives `n` |
| `Decimal.LabelsDistinct` | jigsaw_puzzle.py:131 | different numbers give different labels under the same prefix |
| `Tab.SegmentDrawOf` | jigsaw_puzzle.py:136-141 | what an edge reads from the stored values: `randomJitter15`, `14`, `13`, `12` as jitter1 to jitter4, and `randomBool9` |
| `Tab.Direction` | jigsaw_puzzle.py:141-144 | the direction is -1 or 1, and -1 exactly when `randomBool9` is set |
| `Tab.Plan` | jigsaw_puzzle.py:146-183 | the (along, off) pair of each of the eight points of a tab: 0.2 and 0.8 for control points 1 and 6, `0.5 + jitter2 + jitter4` for 2 and 5, `0.5 -/+ h + jitter2` for the tab points, `0.5 -/+ 2h + jitter2 - jitter4` for 3 and 4, each offset times the direction |
| `Tab.At` | jigsaw_puzzle.py:149-183 | the point of one (along, off) pair on the edge, as each `pointAlongLine` call computes it |
| `Tab.PathDataForLineWithOneTab` | jigsaw_puzzle.py:135-189 | the edge opens with `C` exactly on the first tile and with `S` otherwise; the other two commands are `C`; the last one ends exactly on the end point |
| `Tab.PlanSymmetries` | jigsaw_puzzle.py:148-183 | control points 2 and 5 coincide; control points 3 and 4 share their offset and are 4 half tabs apart; the tab points share their offset and are 2 half tabs apart; control points 1 and 6 sit at 20 % and 80 % with offset direction times jitter1 |
| `Tab.PlanFlip` | jigsaw_puzzle.py:141-183 | flipping `randomBool9` keeps every `along` and negates every offset |
| `Tab.PlanCentredWithoutJitter` | jigsaw_puzzle.py:154-183 | with all four jitters 0, each mirror pair's `along` values sum to 1, control points 1 and 6 lie on the line, and the neck sits at 50 % at minus the half tab |
| `Tab.SegmentSymmetries` | jigsaw_puzzle.py:154-175 | in the emitted points, the first curve's second control point is the third curve's first; control points 3 and 4 are 4 half tabs of the edge apart; the tab points are 2 apart |
| `Tab.ShiftApart` | jigsaw_puzzle.py:164-174 | two plan points with the same offset are emitted exactly their `along` difference of edge vectors apart |
| `Tab.SegmentFlip` | jigsaw_puzzle.py:141-187 | flipping `randomBool9` keeps the end point and reflects every other emitted point through the line |
| `Paths.GridPoint` | jigsaw_puzzle.py:74-83 | intersection `[row][column]`: `row * rowWidth` down and `column * columnWidth` across, with `rowWidth = H / th` and `columnWidth = W / tw` |
| `Paths.GridRow` | jigsaw_puzzle.py:81-83 | grid row `r` has `tiles_width + 1` points, point `c` being `(c * columnWidth, r * rowWidth)` |
| `Paths.Grid` | jigsaw_puzzle.py:78-83 | `tiles_height + 1` rows of `tiles_width + 1` intersections, row `r` being `GridRow(r)` |
| `Paths.GridRowPrefixStep` | jigsaw_puzzle.py:81-83 | appending the intersection of the next column extends the row built so far by exactly that column's point |
| `Paths.GridSpansPuzzle` | jigsaw_puzzle.py:74-83 | the grid runs from the origin to `(puzzle_width, puzzle_height)`, and point `[r][c]` is at `c * W / tw` across and `r * H / th` down |
| `Paths.SegmentDrawAt` | jigsaw_puzzle.py:136-141 | the values an edge reads from the call at `pos`: draws 14, 13, 12, 11 as jitters and draw 23 as the flag |
| `Paths.SegmentDrawOfCall` | jigsaw_puzzle.py:136-141 | an edge reads draws 14, 13, 12, 11 and 23 of the latest call, that is `randomJitter15` .. `12` and `randomBool9` |
| `Paths.DrawsFrom` | jigsaw_puzzle.py:96-101 | the `n` edges of a path read the calls 24 draws apart, starting at the given position |
| `Paths.Edges` | jigsaw_puzzle.py:96-105 | the first `n` tabbed edges of a line: edge `k` from point `k` to point `k + 1` with the `k`-th draws, only edge 0 a first tile |
| `Paths.Flatten` | jigsaw_puzzle.py:101-103 | the path data of a sequence of edges, their commands appended in order |
| `Paths.LinePrefix` | jigsaw_puzzle.py:95-105 | the `pathData` after `k` passes of the inner loop: empty, or the move to the first point followed by the commands of the first `k` edges |
| `Paths.LinePrefixStep` | jigsaw_puzzle.py:96-103 | one more loop pass: a move to the start point on the first pass, then the three commands of the next edge |
| `Paths.LinePrefixFlat` | jigsaw_puzzle.py:95-105 | after at least one pass, the path data is the move to the first point followed by the commands of the edges so far |
| `Paths.EdgesAt` | jigsaw_puzzle.py:96-105 | edge `k` joins point `k` to point `k + 1` with the `k`-th draws, and only edge 0 is the first tile |
| `Paths.EdgesChain` | jigsaw_puzzle.py:96-105 | the edges form a chain through the points: edge `k` ends at point `k + 1`, three cubic commands each, with `C` opening only edge 0 |
| `Paths.PathDataShape` | jigsaw_puzzle.py:95-105 | a chain's path data has 1 + 3n commands, starts with the move, and its command `3k + 3` ends on point `k + 1` |
| `Paths.LinePathShape` | jigsaw_puzzle.py:95-105 | the path data of a whole line has 1 + 3n commands: a move to the first point, `C` on the first edge and `S` on later ones, edge `k` ending on point `k + 1`, and the last command on the last point |
| `Paths.EdgesContinuous` | jigsaw_puzzle.py:96-103 | every edge after the first starts at the very point where the previous edge's last command ends |
| `Paths.CallPos` | jigsaw_puzzle.py:86-97 | the stream position `k` strides of `stride` draws after `pos` |
| `Paths.CallPosIsLinear` | jigsaw_puzzle.py:86-97 | `k` strides of `s` draws after `pos` is position `pos + s * k` |
| `Paths.NamedPath.Name` | jigsaw_puzzle.py:107 | the label `'row' + str(n)` or `'column' + str(n)` of an added path |
| `Paths.RowPoints` | jigsaw_puzzle.py:89-93 | a row path visits the row's intersections left to right on odd rows and right to left on even rows |
| `Paths.RowPathStep` | jigsaw_puzzle.py:96-103 | one pass of the inner row loop adds the edge from the current column to the next column of the walk, using the values of the call made in that pass |
| `Paths.RowPath` | jigsaw_puzzle.py:86-107 | the path added for row `row`: group `Rows`, number `row`, and the line through `RowPoints(row)` whose edges read the `tiles_width` calls after the row's own call |
| `Paths.RowPaths` | jigsaw_puzzle.py:86-107 | there is one row path for each of rows `1 .. n`, in order |
| `Paths.RowPathsSnoc` | jigsaw_puzzle.py:86-107 | one more row extends the row paths by exactly that row's path, using the call `tiles_width + 1` calls further on |
| `Paths.RowPathsExtend` | jigsaw_puzzle.py:86-107 | appending row `n + 1`'s path to the paths added so far gives the rows `1 .. n + 1`, and the next row's call is one stride of `tiles_width + 1` calls later |
| `Paths.ColumnPoints` | jigsaw_puzzle.py:113-117 | a column path visits the column's intersections top to bottom, or bottom to top when descending |
| `Paths.ColumnPathStep` | jigsaw_puzzle.py:120-127 | one pass of the inner column loop adds the edge from the current row to the next row of the walk, using the values of that pass's call |
| `Paths.ColumnPath` | jigsaw_puzzle.py:110-131 | the path added for column `column`: group `Columns`, number `column`, and the line through `ColumnPoints` in the given direction, whose edges read the `tiles_height` calls after the column's own call |
| `Paths.RowBeforeColumns` | jigsaw_puzzle.py:79-86 | the value `row` holds when the column loop starts: `th - 1` after the row loop, or `th` from the grid loop when the row loop is empty |
| `Paths.RowAfterColumnPath` | jigsaw_puzzle.py:115-120 | the value `row` holds after one column path: 1 after a bottom-to-top walk, `th - 1` after a top-to-bottom walk |
| `Paths.LeftoverRow` | jigsaw_puzzle.py:110-120 | the value of `row` that column `column`'s parity test reads |
| `Paths.ColumnDescends` | jigsaw_puzzle.py:115-117 | column `column` walks bottom to top exactly when the `row` it reads is even |
| `Paths.LeftoverRowStep` | jigsaw_puzzle.py:115-120 | the `row` read by the next column is 1 after a bottom-to-top walk, and `tiles_height - 1` after a top-to-bottom walk |
| `Paths.ColumnDirectionPattern` | jigsaw_puzzle.py:110-120 | column paths descend never when `tiles_height` is even; on odd columns when it is odd and at least 3; on even columns when it is 1 |
| `Paths.ColumnPaths` | jigsaw_puzzle.py:110-131 | there is one column path for each of columns `1 .. n`, in order |
| `Paths.ColumnPathsSnoc` | jigsaw_puzzle.py:110-131 | one more column extends the column paths by exactly that column's path, in the direction the leftover `row` picks |
| `Paths.ColumnPathsExtend` | jigsaw_puzzle.py:110-131 | appending column `n + 1`'s path, in the direction its leftover `row` picks, gives the columns `1 .. n + 1`; the next column reads the `row` this walk leaves, and its call is one stride later |
| `Paths.RowPathShape` | jigsaw_puzzle.py:86-107 | a row path starts on the left border on odd rows and on the right on even rows, ends on the opposite border, and its edge `k` ends on the next intersection of the walk |
| `Paths.ColumnPathShape` | jigsaw_puzzle.py:110-131 | a column path starts at the top (or the bottom when descending), ends on the opposite border, and its edge `k` ends on the next intersection of the walk |
| `Puzzle.HalfTabSizePct` | jigsaw_puzzle.py:37 | twice the half tab size, as a percentage, is the `tab_size` option |
| `Puzzle.JitterPct` | jigsaw_puzzle.py:38 | the jitter fraction, as a percentage, is the `jitter` option |
| `Puzzle.RowsPos` | jigsaw_puzzle.py:72-87 | where the row loop's calls begin: after the initial call and one call per intersection |
| `Puzzle.ColumnsPos` | jigsaw_puzzle.py:86-111 | where the column loop's calls begin: after `tiles_width + 1` calls for each row path |
| `Puzzle.EndPos` | jigsaw_puzzle.py:110-131 | the stream position after a run: `tiles_height + 1` calls more for each column path |
| `Puzzle.DrawCount` | jigsaw_puzzle.py:72-131 | a run takes `24 * (1 + (th+1)(tw+1) + (th-1)(tw+1) + (tw-1)(th+1))` draws |
| `Puzzle.Cuts` | jigsaw_puzzle.py:86-131 | a run adds `(th - 1) + (tw - 1)` paths |
| `Puzzle.CutsNamed` | jigsaw_puzzle.py:107-131 | the paths are `row1 .. row(th-1)` in order, then `column1 .. column(tw-1)` |
| `Puzzle.NamesDistinct` | jigsaw_puzzle.py:107-131 | paths named rows first, then columns, never share a label |
| `Puzzle.NamesDistinctAt` | jigsaw_puzzle.py:107-131 | any two positions in such a list carry different labels |
| `Puzzle.CutNamesDistinct` | jigsaw_puzzle.py:107-131 | no two paths of a run share a label |
| `Puzzle.ThreeByTwoGrid` | jigsaw_puzzle.py:74-83 | in a 300 x 200 puzzle of 3 x 2 tiles, the middle intersection row lies at y = 100 and x = 0, 100, 200, 300 |
| `Puzzle.ThreeByTwoRowPath` | jigsaw_puzzle.py:86-107 | in that puzzle, row path 1 has 10 commands, and its edges end on (100, 100), (200, 100) and (300, 100) in that order |
| `Jigsaw.JigsawPuzzle.constructor` | jigsaw_puzzle.py:24-32 | the object holds the given options, has taken no draws and has added no paths |
| `Jigsaw.JigsawPuzzle.GenerateRandomValues` | jigsaw_puzzle.py:199-226 | stores the 15 jitters and 9 booleans of the next 24 draws, and advances the stream by 24 |
| `Jigsaw.JigsawPuzzle.AddPath` | jigsaw_puzzle.py:12-16 | the path, with its group and label, is appended after every path added before it |
| `Jigsaw.JigsawPuzzle.BuildIntersections` | jigsaw_puzzle.py:77-83 | builds exactly `Grid`, takes one call per intersection, and leaves `row` at `tiles_height` |
| `Jigsaw.JigsawPuzzle.FillGridRow` | jigsaw_puzzle.py:80-83 | fills row `row` with exactly `GridRow(row)`, one call per column |
| `Jigsaw.JigsawPuzzle.AddRowPath` | jigsaw_puzzle.py:86-107 | one pass of the row loop appends exactly `RowPath(row)` and takes `tiles_width + 1` calls |
| `Jigsaw.JigsawPuzzle.RowPathData` | jigsaw_puzzle.py:89-105 | the inner row loop computes the line through `RowPoints(row)`, with draws from the calls it makes |
| `Jigsaw.JigsawPuzzle.AddRowPaths` | jigsaw_puzzle.py:86-107 | the row loop appends exactly the row paths of rows `1 .. th - 1`, and leaves `row` at `th - 1`, or unchanged when there are none |
| `Jigsaw.JigsawPuzzle.AddNextRowPath` | jigsaw_puzzle.py:86-107 | one pass of the row loop turns the paths of rows `1 .. k` into those of rows `1 .. k + 1`, and advances the stream by one row's calls |
| `Jigsaw.JigsawPuzzle.AddColumnPath` | jigsaw_puzzle.py:110-131 | one pass of the column loop appends the column path in the direction the leftover `row`'s parity picks, and returns the new `row` |
| `Jigsaw.JigsawPuzzle.ColumnPathData` | jigsaw_puzzle.py:113-129 | the inner column loop computes the line through `ColumnPoints`, and leaves `row` at 1 after a descent or at `th - 1` otherwise |
| `Jigsaw.JigsawPuzzle.AddColumnPaths` | jigsaw_puzzle.py:110-131 | the column loop appends exactly the column paths of columns `1 .. tw - 1`, in the directions the leftover `row` picks |
| `Jigsaw.JigsawPuzzle.AddNextColumnPath` | jigsaw_puzzle.py:110-131 | one pass of the column loop turns the paths of columns `1 .. k` into those of columns `1 .. k + 1`, and returns the `row` the next column reads |
| `Jigsaw.JigsawPuzzle.Effect` | jigsaw_puzzle.py:34-131 | sets the converted options; a zero tile count gives `ZeroDivisionError` after one call with nothing added; otherwise exactly `Cuts` is appended and the stream ends at `EndPos` |
| `Jigsaw.JigsawPuzzle.DrawCuts` | jigsaw_puzzle.py:74-131 | after the initial call, the grid, row and column loops append exactly `Cuts` |

## Left out

- Inkscape plumbing is not modelled: option parsing, the view-centre `translate` transform (lines 40-43), and the `Puzzle`, `Rows` and `Columns` groups (lines 45-51). The groups appear only as the `Group` of each added path.
- The line styles (lines 53-56) and the red border rectangle (lines 58-62) are not modelled; they add no cut line.
- `addPath` builds an XML element (lines 12-16); the model appends the group, the number that makes up the label and the path data to a list.
- Seeding and Python's Mersenne Twister are not modelled (lines 64-66). The draws are a parameter `stream`, and a run is stated for every stream.
- Text is not modelled: `str` on floats and the assembly of the `d` attribute are left out. Path data is a sequence of commands over exact points, in which x is always written before y.
- Floats are modelled as exact reals, without IEEE rounding.
- Tile counts are natural numbers. The code's behaviour for negative counts (empty ranges and negative widths) is not modelled. Such counts can end in `UnboundLocalError`: at line 107 when `tiles_width` is negative and the row loop runs, because `pathData` was never assigned, and at line 115 when `tiles_height` is negative and `tiles_width` is at least 2, because no loop has bound `row`.
- `Jigsaw.JigsawPuzzle.Effect`: does not state the final `randomValues`. These are the values of the last call, which nothing reads after the run.
- `Jigsaw.JigsawPuzzle.DrawCuts`: does not state the final `randomValues`, for the same reason.
- `Jigsaw.JigsawPuzzle.BuildIntersections`: does not state the `randomValues` it leaves; later code overwrites them before reading them.
- `Jigsaw.JigsawPuzzle.FillGridRow`: does not state the `randomValues` it leaves, for the same reason.
- `Jigsaw.JigsawPuzzle.AddRowPath`: does not state the `randomValues` it leaves, for the same reason.
- `Jigsaw.JigsawPuzzle.RowPathData`: does not state the `randomValues` it leaves, for the same reason.
- `Jigsaw.JigsawPuzzle.AddRowPaths`: does not state the `randomValues` it leaves, for the same reason.
- `Jigsaw.JigsawPuzzle.AddNextRowPath`: does not state the `randomValues` it leaves, for the same reason.
- `Jigsaw.JigsawPuzzle.AddColumnPath`: does not state the `randomValues` it leaves, for the same reason.
- `Jigsaw.JigsawPuzzle.ColumnPathData`: does not state the `randomValues` it leaves, for the same reason.
- `Jigsaw.JigsawPuzzle.AddColumnPaths`: does not state the `randomValues` it leaves, for the same reason.
- `Jigsaw.JigsawPuzzle.AddNextColumnPath`: does not state the `randomValues` it leaves, for the same reason.
- `effect` is one method in the source. Here its grid, row and column loops, one pass of each of the row and column loops, and their inner loops are separate methods. Each method's contract carries the loop state (`row`, the draw count) across to the next, so the order of operations is unchanged.
