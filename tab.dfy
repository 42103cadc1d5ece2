/** One grid edge drawn as three cubic Bezier commands with a single tab. */
module Tab {
  import opened Geometry
  import opened RandomDraws

  /** SVG path commands over points instead of text: `M p`, `C c1,c2,p` and
      `S c2,p` (the smooth cubic that reflects the previous control point). */
  datatype PathCommand =
    | MoveTo(p: Intersection)
    | CubicTo(c1: Intersection, c2: Intersection, p: Intersection)
    | SmoothTo(c2: Intersection, p: Intersection)

  /** What one edge reads from the most recent `generateRandomValues` call:
      jitter1..jitter4 are `randomJitter15`, `14`, `13`, `12`, and the direction
      flag is `randomBool9`. */
  datatype SegmentDraw = SegmentDraw(jitter1: real, jitter2: real, jitter3: real, jitter4: real, bool9: bool)

  function SegmentDrawOf(v: RandomValues): SegmentDraw
  {
    SegmentDraw(v.jitter15, v.jitter14, v.jitter13, v.jitter12, v.bool9)
  }

  /** The tab points out of the line (-1) when `randomBool9` is set, else +1. */
  function Direction(d: SegmentDraw): (dir: real)
    ensures dir == -1.0 || dir == 1.0
    ensures dir == -1.0 <==> d.bool9
  {
    if d.bool9 then -1.0 else 1.0
  }

  /** A point given as a fraction along the edge and a fraction off it. */
  datatype AlongOff = AlongOff(along: real, off: real)

  /** The eight (along, off) pairs of one tabbed edge: control point 1, control
      point 2, tab point 1, control points 3 and 4, tab point 2, control
      points 5 and 6. */
  datatype TabPlan = TabPlan(cp1: AlongOff, cp2: AlongOff, tab1: AlongOff, cp3: AlongOff,
                             cp4: AlongOff, tab2: AlongOff, cp5: AlongOff, cp6: AlongOff)

  function Plan(halfTabSizePct: real, d: SegmentDraw): TabPlan
  {
    var dir := Direction(d);
    var h := halfTabSizePct;
    TabPlan(AlongOff(0.2, dir * d.jitter1),
            AlongOff(0.5 + d.jitter2 + d.jitter4, dir * (-h + d.jitter3)),
            AlongOff(0.5 - h + d.jitter2, dir * (h + d.jitter3)),
            AlongOff(0.5 - 2.0 * h + d.jitter2 - d.jitter4, dir * (3.0 * h + d.jitter3)),
            AlongOff(0.5 + 2.0 * h + d.jitter2 - d.jitter4, dir * (3.0 * h + d.jitter3)),
            AlongOff(0.5 + h + d.jitter2, dir * (h + d.jitter3)),
            AlongOff(0.5 + d.jitter2 + d.jitter4, dir * (-h + d.jitter3)),
            AlongOff(0.8, dir * d.jitter1))
  }

  function At(start: Intersection, end: Intersection, a: AlongOff): Intersection
  {
    PointAlongLine(start, end, a.along, a.off)
  }

  /** The three commands one edge contributes to its path. */
  datatype Segment = Segment(first: PathCommand, second: PathCommand, third: PathCommand)
  {
    function Commands(): seq<PathCommand>
    {
      [first, second, third]
    }
  }

  /** `pathDataForLineWithOneTab`: the edge from `start` to `end` as three cubic
      commands. Only the first edge of a path carries control point 1 in a full
      `C`; later edges continue with `S`. The last command ends exactly on `end`. */
  function PathDataForLineWithOneTab(firstTile: bool, start: Intersection, end: Intersection,
                                     halfTabSizePct: real, d: SegmentDraw): (r: Segment)
    ensures r.first.CubicTo? <==> firstTile
    ensures r.first.SmoothTo? <==> !firstTile
    ensures r.second.CubicTo? && r.third.CubicTo?
    ensures r.third.p == end
  {
    var t := Plan(halfTabSizePct, d);
    Segment(if firstTile then CubicTo(At(start, end, t.cp1), At(start, end, t.cp2), At(start, end, t.tab1))
            else SmoothTo(At(start, end, t.cp2), At(start, end, t.tab1)),
            CubicTo(At(start, end, t.cp3), At(start, end, t.cp4), At(start, end, t.tab2)),
            CubicTo(At(start, end, t.cp5), At(start, end, t.cp6), end))
  }

  /** The symmetries of one tab: control points 2 and 5 coincide; control
      points 3 and 4 share their offset and lie 4 half-tabs apart along the
      edge; the tab points share their offset and lie 2 half-tabs apart;
      control points 1 and 6 sit at 20 % and 80 % with offset direction * jitter1. */
  lemma PlanSymmetries(halfTabSizePct: real, d: SegmentDraw)
    ensures var t := Plan(halfTabSizePct, d);
            && t.cp2 == t.cp5
            && t.cp3.off == t.cp4.off && t.cp4.along - t.cp3.along == 4.0 * halfTabSizePct
            && t.tab1.off == t.tab2.off && t.tab2.along - t.tab1.along == 2.0 * halfTabSizePct
            && t.cp1 == AlongOff(0.2, Direction(d) * d.jitter1)
            && t.cp6 == AlongOff(0.8, Direction(d) * d.jitter1)
  {
  }

  function NegateOff(a: AlongOff): AlongOff
  {
    AlongOff(a.along, -a.off)
  }

  /** Flipping `randomBool9` keeps every along fraction and negates every offset. */
  lemma PlanFlip(halfTabSizePct: real, d: SegmentDraw)
    ensures var t := Plan(halfTabSizePct, d);
            var f := Plan(halfTabSizePct, d.(bool9 := !d.bool9));
            && f.cp1 == NegateOff(t.cp1) && f.cp2 == NegateOff(t.cp2) && f.tab1 == NegateOff(t.tab1)
            && f.cp3 == NegateOff(t.cp3) && f.cp4 == NegateOff(t.cp4) && f.tab2 == NegateOff(t.tab2)
            && f.cp5 == NegateOff(t.cp5) && f.cp6 == NegateOff(t.cp6)
  {
  }

  /** Without jitter the tab is centred on the edge: each pair of mirror
      points has along fractions summing to 1, and the neck control points 2
      and 5 sit exactly at the middle. */
  lemma PlanCentredWithoutJitter(halfTabSizePct: real, d: SegmentDraw)
    requires d.jitter1 == 0.0 && d.jitter2 == 0.0 && d.jitter3 == 0.0 && d.jitter4 == 0.0
    ensures var t := Plan(halfTabSizePct, d);
            && t.cp1.along + t.cp6.along == 1.0 && t.cp1.off == 0.0 && t.cp6.off == 0.0
            && t.tab1.along + t.tab2.along == 1.0
            && t.cp3.along + t.cp4.along == 1.0
            && t.cp2.along == 0.5 && t.cp2.off == -Direction(d) * halfTabSizePct
  {
  }

  /** The symmetries carried over to the emitted points: the same point ends
      the neck of the first curve and starts the third; control points 3 and 4
      differ by 4 half-tabs of the edge vector, the two tab points by 2. */
  lemma SegmentSymmetries(firstTile: bool, start: Intersection, end: Intersection, halfTabSizePct: real, d: SegmentDraw)
    ensures var r := PathDataForLineWithOneTab(firstTile, start, end, halfTabSizePct, d);
            && r.first.c2 == r.third.c1
            && ApartBy(start, end, r.second.c1, r.second.c2, 4.0 * halfTabSizePct)
            && ApartBy(start, end, r.first.p, r.second.p, 2.0 * halfTabSizePct)
  {
    var t := Plan(halfTabSizePct, d);
    PlanSymmetries(halfTabSizePct, d);
    ShiftApart(start, end, t.cp3, t.cp4);
    ShiftApart(start, end, t.tab1, t.tab2);
  }

  /** `q` lies `k` edge vectors beyond `p`. */
  ghost predicate ApartBy(start: Intersection, end: Intersection, p: Intersection, q: Intersection, k: real)
  {
    && q.column - p.column == (end.column - start.column) * k
    && q.row - p.row == (end.row - start.row) * k
  }

  lemma ShiftApart(start: Intersection, end: Intersection, a: AlongOff, b: AlongOff)
    requires a.off == b.off
    ensures ApartBy(start, end, At(start, end, a), At(start, end, b), b.along - a.along)
  {
    PointAlongLineShift(start, end, a.along, b.along, a.off);
  }

  /** Flipping the direction flag reflects every emitted point except the
      end point through the line, and leaves the command kinds and the end
      point as they were. */
  lemma SegmentFlip(firstTile: bool, start: Intersection, end: Intersection, halfTabSizePct: real, d: SegmentDraw)
    ensures var r := PathDataForLineWithOneTab(firstTile, start, end, halfTabSizePct, d);
            var f := PathDataForLineWithOneTab(firstTile, start, end, halfTabSizePct, d.(bool9 := !d.bool9));
            var t := Plan(halfTabSizePct, d);
            && f.third.p == r.third.p
            && (firstTile ==> Mirrored(start, end, t.cp1, r.first.c1, f.first.c1))
            && Mirrored(start, end, t.cp2, r.first.c2, f.first.c2)
            && Mirrored(start, end, t.tab1, r.first.p, f.first.p)
            && Mirrored(start, end, t.cp3, r.second.c1, f.second.c1)
            && Mirrored(start, end, t.cp4, r.second.c2, f.second.c2)
            && Mirrored(start, end, t.tab2, r.second.p, f.second.p)
            && Mirrored(start, end, t.cp5, r.third.c1, f.third.c1)
            && Mirrored(start, end, t.cp6, r.third.c2, f.third.c2)
  {
    var t := Plan(halfTabSizePct, d);
    PlanFlip(halfTabSizePct, d);
    PointAlongLineMirror(start, end, t.cp1.along, t.cp1.off);
    PointAlongLineMirror(start, end, t.cp2.along, t.cp2.off);
    PointAlongLineMirror(start, end, t.tab1.along, t.tab1.off);
    PointAlongLineMirror(start, end, t.cp3.along, t.cp3.off);
    PointAlongLineMirror(start, end, t.cp4.along, t.cp4.off);
    PointAlongLineMirror(start, end, t.tab2.along, t.tab2.off);
    PointAlongLineMirror(start, end, t.cp5.along, t.cp5.off);
    PointAlongLineMirror(start, end, t.cp6.along, t.cp6.off);
  }

  /** `p` and `q` are reflections of each other through the on-line point at
      the along fraction of `a`. */
  ghost predicate Mirrored(start: Intersection, end: Intersection, a: AlongOff, p: Intersection, q: Intersection)
  {
    var base := PointAlongLine(start, end, a.along, 0.0);
    p.row + q.row == 2.0 * base.row && p.column + q.column == 2.0 * base.column
  }
}
