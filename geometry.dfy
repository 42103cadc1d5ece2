/** Points of the puzzle plane and the along/off parameterisation of a point
    relative to a grid edge. */
module Geometry {

  /** A grid intersection. As in the extension, `row` is the vertical (y)
      coordinate and `column` the horizontal (x) coordinate, both in puzzle
      units with the origin at the top-left corner. */
  datatype Intersection = Intersection(row: real, column: real)

  /** The point `percentAlong` of the way from `start` to `end` and displaced
      by `percentOff` times the edge vector with its two components swapped:
      x gets `diffY * percentOff`, y gets `diffX * percentOff`. This is the
      extension's own convention and not a rotation by 90 degrees. */
  function PointAlongLine(start: Intersection, end: Intersection, percentAlong: real, percentOff: real): Intersection
  {
    var diffX := end.column - start.column;
    var diffY := end.row - start.row;
    Intersection(start.row + diffY * percentAlong + diffX * percentOff,
                 start.column + diffX * percentAlong + diffY * percentOff)
  }

  /** Zero along and zero off is the start point; all the way along is the end point. */
  lemma PointAlongLineEndpoints(start: Intersection, end: Intersection)
    ensures PointAlongLine(start, end, 0.0, 0.0) == start
    ensures PointAlongLine(start, end, 1.0, 0.0) == end
  {
  }

  /** The map is affine: the point is `start + diff * along + swap(diff) * off`,
      where `swap` exchanges the x and y components of the edge vector. */
  lemma PointAlongLineDecomposition(start: Intersection, end: Intersection, along: real, off: real)
    ensures var p := PointAlongLine(start, end, along, off);
            var base := PointAlongLine(start, end, along, 0.0);
            && base.column - start.column == (end.column - start.column) * along
            && base.row - start.row == (end.row - start.row) * along
            && p.column - base.column == (end.row - start.row) * off
            && p.row - base.row == (end.column - start.column) * off
  {
  }

  /** Walking the same edge backwards gives the same point for the
      complementary along fraction and the negated offset. */
  lemma PointAlongLineReversed(start: Intersection, end: Intersection, along: real, off: real)
    ensures PointAlongLine(end, start, 1.0 - along, -off) == PointAlongLine(start, end, along, off)
  {
  }

  /** Negating the offset reflects the point through the on-line point with
      the same along fraction. */
  lemma PointAlongLineMirror(start: Intersection, end: Intersection, along: real, off: real)
    ensures var p := PointAlongLine(start, end, along, off);
            var q := PointAlongLine(start, end, along, -off);
            var base := PointAlongLine(start, end, along, 0.0);
            p.row + q.row == 2.0 * base.row && p.column + q.column == 2.0 * base.column
  {
  }

  /** Two points with the same offset differ by the edge vector scaled by the
      difference of their along fractions. */
  lemma PointAlongLineShift(start: Intersection, end: Intersection, along1: real, along2: real, off: real)
    ensures var p := PointAlongLine(start, end, along1, off);
            var q := PointAlongLine(start, end, along2, off);
            && q.column - p.column == (end.column - start.column) * (along2 - along1)
            && q.row - p.row == (end.row - start.row) * (along2 - along1)
  {
  }

  /** The displacement produced by the offset has dot product
      `2 * off * diffX * diffY` with the edge vector, so it is perpendicular to
      the edge exactly when the offset is zero or the edge is horizontal or
      vertical (which every grid edge of this extension is). */
  lemma OffsetPerpendicularIffAxisAligned(start: Intersection, end: Intersection, along: real, off: real)
    ensures var p := PointAlongLine(start, end, along, off);
            var base := PointAlongLine(start, end, along, 0.0);
            var diffX := end.column - start.column;
            var diffY := end.row - start.row;
            var dot := (p.column - base.column) * diffX + (p.row - base.row) * diffY;
            && dot == 2.0 * off * diffX * diffY
            && (dot == 0.0 <==> off == 0.0 || diffX == 0.0 || diffY == 0.0)
  {
    var diffX := end.column - start.column;
    var diffY := end.row - start.row;
    if off != 0.0 && diffX != 0.0 && diffY != 0.0 {
      NonZeroProduct(off, diffX, diffY);
    }
  }

  /** On the grid's edges the offset is a quarter turn of the edge vector
      times `off`, but not the same quarter turn: with `(x, y) |-> (-y, x)`
      the +90 degree turn, a horizontal edge (a row edge) is displaced by
      `+off` times its turn and a vertical edge (a column edge) by `-off`
      times its turn, so row and column tabs bend with opposite senses. */
  lemma OffsetTurnsOppositeWays(start: Intersection, end: Intersection, along: real, off: real)
    ensures var p := PointAlongLine(start, end, along, off);
            var base := PointAlongLine(start, end, along, 0.0);
            var diffX := end.column - start.column;
            var diffY := end.row - start.row;
            && (diffY == 0.0 ==> p.column - base.column == off * -diffY && p.row - base.row == off * diffX)
            && (diffX == 0.0 ==> p.column - base.column == -off * -diffY && p.row - base.row == -off * diffX)
  {
  }

  lemma NonZeroProduct(a: real, b: real, c: real)
    requires a != 0.0 && b != 0.0 && c != 0.0
    ensures 2.0 * a * b * c != 0.0
  {
    assert a * b != 0.0;
  }
}
