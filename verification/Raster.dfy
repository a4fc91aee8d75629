/** The geometry of the rasterizer, over exact reals: clipping a segment to a
    box, the orientation of a polygon, and the map from canvas to pixels. */
module Raster {
  import opened Arithmetic

  datatype Point = Point(x: real, y: real)

  datatype Box = Box(minX: real, minY: real, maxX: real, maxY: real)

  predicate Inside(p: Point, box: Box) {
    box.minX <= p.x <= box.maxX && box.minY <= p.y <= box.maxY
  }

  // ---- clipping a segment --------------------------------------------------------

  /** The point t of the way from a to b. */
  function Along(a: Point, b: Point, t: real): Point {
    Point(a.x + t * (b.x - a.x), a.y + t * (b.y - a.y))
  }

  ghost predicate OnSegment(a: Point, b: Point, p: Point) {
    exists t :: 0.0 <= t <= 1.0 && p == Along(a, b, t)
  }

  /** One side of the box as a condition on t: slope * t <= room. */
  datatype Side = Side(slope: real, room: real)

  predicate Holds(side: Side, t: real) {
    side.slope * t <= side.room
  }

  predicate AllHold(sides: seq<Side>, n: nat, t: real)
    requires n <= |sides|
  {
    forall i :: 0 <= i < n ==> Holds(sides[i], t)
  }

  function SidesOf(a: Point, b: Point, box: Box): (sides: seq<Side>)
    ensures |sides| == 4
  {
    var dx, dy := b.x - a.x, b.y - a.y;
    [Side(-dx, a.x - box.minX), Side(dx, box.maxX - a.x), Side(-dy, a.y - box.minY), Side(dy, box.maxY - a.y)]
  }

  lemma SidesMeanInside(a: Point, b: Point, box: Box, t: real)
    ensures Inside(Along(a, b, t), box) <==> AllHold(SidesOf(a, b, box), 4, t)
  {
    var sides, dx, dy := SidesOf(a, b, box), b.x - a.x, b.y - a.y;
    CoordinateSides(a.x, dx, t, box.minX, box.maxX);
    CoordinateSides(a.y, dy, t, box.minY, box.maxY);
    assert sides == [Side(-dx, a.x - box.minX), Side(dx, box.maxX - a.x),
                     Side(-dy, a.y - box.minY), Side(dy, box.maxY - a.y)];
    hide Holds, SidesOf;
    assert AllHold(sides, 4, t) <==>
           Holds(sides[0], t) && Holds(sides[1], t) && Holds(sides[2], t) && Holds(sides[3], t);
  }

  lemma CoordinateSides(start: real, d: real, t: real, low: real, high: real)
    ensures Holds(Side(-d, start - low), t) <==> low <= start + t * d
    ensures Holds(Side(d, high - start), t) <==> start + t * d <= high
  {
    assert (-d) * t == -(t * d) && d * t == t * d;
  }

  /** A side that the segment crosses bounds t by one number, from below or above. */
  lemma SideBounds(side: Side, t: real)
    requires side.slope != 0.0
    ensures var r := side.room / side.slope; Holds(side, t) <==> if side.slope < 0.0 then r <= t else t <= r
  {
    var r := side.room / side.slope;
    assert side.room == r * side.slope;
    assert (t - r) * side.slope == side.slope * t - side.room;
    SignOfProduct(t - r, side.slope);
  }

  lemma SignOfProduct(a: real, b: real)
    ensures b > 0.0 ==> (a * b <= 0.0 <==> a <= 0.0)
    ensures b < 0.0 ==> (a * b <= 0.0 <==> a >= 0.0)
  {
  }

  /** Exactly the t of [0, 1] that satisfy the first n sides lie in [t0, t1]. */
  ghost predicate Narrowed(sides: seq<Side>, n: nat, t0: real, t1: real)
    requires n <= |sides|
  {
    && 0.0 <= t0 <= t1 <= 1.0
    && forall t :: 0.0 <= t <= 1.0 ==> (AllHold(sides, n, t) <==> t0 <= t <= t1)
  }

  ghost predicate Excluded(sides: seq<Side>, n: nat)
    requires n <= |sides|
  {
    forall t :: 0.0 <= t <= 1.0 ==> !AllHold(sides, n, t)
  }

  /** One more side narrows the range to its part on the good side of the crossing ... */
  lemma SideNarrows(sides: seq<Side>, n: nat, t0: real, t1: real, u0: real, u1: real)
    requires n < |sides| && Narrowed(sides, n, t0, t1) && 0.0 <= u0 <= u1 <= 1.0
    requires forall t :: 0.0 <= t <= 1.0 && t0 <= t <= t1 ==> (Holds(sides[n], t) <==> u0 <= t <= u1)
    requires t0 <= u0 && u1 <= t1
    ensures Narrowed(sides, n + 1, u0, u1)
  {
    hide Holds;
    var m := n + 1;
    forall t | 0.0 <= t <= 1.0
      ensures AllHold(sides, m, t) <==> u0 <= t <= u1
    {
      assert AllHold(sides, m, t) <==> AllHold(sides, n, t) && Holds(sides[n], t);
    }
  }

  /** ... or leaves nothing. */
  lemma SideExcludes(sides: seq<Side>, n: nat, m: nat, t0: real, t1: real)
    requires n < m <= |sides| && Narrowed(sides, n, t0, t1)
    requires forall t :: 0.0 <= t <= 1.0 && t0 <= t <= t1 ==> !Holds(sides[n], t)
    ensures Excluded(sides, m)
  {
    hide Holds;
    var side := sides[n];
    forall t | 0.0 <= t <= 1.0
      ensures !AllHold(sides, m, t)
    {
      assert AllHold(sides, m, t) ==> AllHold(sides, n, t) && Holds(side, t);
    }
  }

  /** One check of the clipping loop. */
  method Narrow(sides: seq<Side>, n: nat, t0: real, t1: real) returns (visible: bool, u0: real, u1: real)
    requires n < |sides| && Narrowed(sides, n, t0, t1)
    ensures if visible then Narrowed(sides, n + 1, u0, u1) else Excluded(sides, |sides|)
  {
    hide Holds, Narrowed, Excluded;
    NarrowedRange(sides, n, t0, t1);
    visible, u0, u1 := true, t0, t1;
    var side := sides[n];
    if side.slope == 0.0 {
      FlatSide(side);
      if side.room < 0.0 {
        SideExcludes(sides, n, |sides|, t0, t1);
        visible := false;
      } else {
        SideNarrows(sides, n, t0, t1, t0, t1);
      }
      return;
    }
    var r := side.room / side.slope;
    forall t
      ensures Holds(side, t) <==> if side.slope < 0.0 then r <= t else t <= r
    {
      SideBounds(side, t);
    }
    if side.slope < 0.0 {
      if r > t1 {
        SideExcludes(sides, n, |sides|, t0, t1);
        return false, t0, t1;
      }
      u0 := if t0 > r then t0 else r;
    } else {
      if r < t0 {
        SideExcludes(sides, n, |sides|, t0, t1);
        return false, t0, t1;
      }
      u1 := if t1 < r then t1 else r;
    }
    SideNarrows(sides, n, t0, t1, u0, u1);
  }

  lemma NarrowedRange(sides: seq<Side>, n: nat, t0: real, t1: real)
    requires n <= |sides| && Narrowed(sides, n, t0, t1)
    ensures 0.0 <= t0 <= t1 <= 1.0
  {
  }

  lemma FlatSide(side: Side)
    requires side.slope == 0.0
    ensures forall t :: Holds(side, t) <==> side.room >= 0.0
  {
    forall t
      ensures Holds(side, t) <==> side.room >= 0.0
    {
      assert side.slope * t == 0.0;
    }
  }

  /** The part of the segment inside the box, as a range of t. */
  ghost predicate ClippedTo(a: Point, b: Point, box: Box, t0: real, t1: real) {
    0.0 <= t0 <= t1 <= 1.0 && forall t :: 0.0 <= t <= 1.0 ==> (Inside(Along(a, b, t), box) <==> t0 <= t <= t1)
  }

  lemma SidesClip(a: Point, b: Point, box: Box, t0: real, t1: real)
    requires Narrowed(SidesOf(a, b, box), 4, t0, t1)
    ensures ClippedTo(a, b, box, t0, t1)
  {
    hide AllHold, Holds, Inside, Along, SidesOf;
    forall t | 0.0 <= t <= 1.0
      ensures Inside(Along(a, b, t), box) <==> t0 <= t <= t1
    {
      SidesMeanInside(a, b, box, t);
    }
  }

  /** Clips a segment to a box. It reports false exactly when no point of the
      segment is inside; otherwise the result is exactly the part inside. */
  method ClipSegment(a: Point, b: Point, box: Box) returns (from: Point, to: Point, visible: bool)
    ensures visible <==> exists p :: OnSegment(a, b, p) && Inside(p, box)
    ensures visible ==> forall p :: OnSegment(from, to, p) <==> OnSegment(a, b, p) && Inside(p, box)
    ensures visible ==> Forward(a, b, from, to)
    ensures !visible ==> from == a && to == b
  {
    hide AllHold, Holds, Narrowed, Excluded, Along, OnSegment, Inside, Forward;
    var t0, t1 := 0.0, 1.0;
    var sides := SidesOf(a, b, box);
    NothingNarrowed(sides);
    for i := 0 to 4
      invariant Narrowed(sides, i, t0, t1)
    {
      visible, t0, t1 := Narrow(sides, i, t0, t1);
      if !visible {
        NothingVisible(a, b, box);
        return a, b, false;
      }
    }
    NarrowedRange(sides, 4, t0, t1);
    SidesClip(a, b, box, t0, t1);
    ClippedSegment(a, b, box, t0, t1);
    from, to, visible := Along(a, b, t0), Along(a, b, t1), true;
    ForwardPart(a, b, t0, t1);
  }

  /** A part of a segment that runs the way the segment does. */
  ghost predicate Forward(a: Point, b: Point, from: Point, to: Point) {
    exists t0, t1 :: 0.0 <= t0 <= t1 <= 1.0 && from == Along(a, b, t0) && to == Along(a, b, t1)
  }

  lemma ForwardPart(a: Point, b: Point, t0: real, t1: real)
    requires 0.0 <= t0 <= t1 <= 1.0
    ensures Forward(a, b, Along(a, b, t0), Along(a, b, t1))
  {
  }

  lemma NothingNarrowed(sides: seq<Side>)
    ensures Narrowed(sides, 0, 0.0, 1.0)
  {
  }

  lemma NothingVisible(a: Point, b: Point, box: Box)
    requires Excluded(SidesOf(a, b, box), 4)
    ensures !exists p :: OnSegment(a, b, p) && Inside(p, box)
  {
    hide AllHold, Holds, Inside, Along, SidesOf;
    forall p | OnSegment(a, b, p)
      ensures !Inside(p, box)
    {
      var t :| 0.0 <= t <= 1.0 && p == Along(a, b, t);
      SidesMeanInside(a, b, box, t);
    }
  }

  /** The points between two points of a segment are its points in between. */
  lemma ClippedSegment(a: Point, b: Point, box: Box, t0: real, t1: real)
    requires ClippedTo(a, b, box, t0, t1)
    ensures var from, to := Along(a, b, t0), Along(a, b, t1);
            && OnSegment(a, b, from) && Inside(from, box)
            && forall p :: OnSegment(from, to, p) <==> OnSegment(a, b, p) && Inside(p, box)
  {
    hide Along, Inside, Between;
    var from, to := Along(a, b, t0), Along(a, b, t1);
    forall p | OnSegment(from, to, p)
      ensures OnSegment(a, b, p) && Inside(p, box)
    {
      var s :| 0.0 <= s <= 1.0 && p == Along(from, to, s);
      var t := Between(t0, t1, s);
      AlongAlong(a, b, t0, t1, s);
      BetweenInside(t0, t1, s);
      assert p == Along(a, b, t);
    }
    forall p | OnSegment(a, b, p) && Inside(p, box)
      ensures OnSegment(from, to, p)
    {
      var t :| 0.0 <= t <= 1.0 && p == Along(a, b, t);
      var s := Fraction(t0, t1, t);
      AlongAlong(a, b, t0, t1, s);
      assert p == Along(from, to, s);
    }
  }

  lemma AlongAlong(a: Point, b: Point, t0: real, t1: real, s: real)
    ensures Along(Along(a, b, t0), Along(a, b, t1), s) == Along(a, b, Between(t0, t1, s))
  {
    Weighted(a.x, b.x - a.x, t0, t1, s);
    Weighted(a.y, b.y - a.y, t0, t1, s);
  }

  lemma Weighted(u: real, d: real, t0: real, t1: real, s: real)
    ensures u + t0 * d + s * ((u + t1 * d) - (u + t0 * d)) == u + (t0 + s * (t1 - t0)) * d
  {
  }

  lemma NonNegativeProduct(a: real, b: real)
    requires a >= 0.0 && b >= 0.0
    ensures a * b >= 0.0
  {
  }

  function Between(t0: real, t1: real, s: real): real {
    t0 + s * (t1 - t0)
  }

  lemma BetweenInside(t0: real, t1: real, s: real)
    requires t0 <= t1 && 0.0 <= s <= 1.0
    ensures t0 <= Between(t0, t1, s) <= t1
  {
    NonNegativeProduct(s, t1 - t0);
    NonNegativeProduct(1.0 - s, t1 - t0);
    assert (1.0 - s) * (t1 - t0) == (t1 - t0) - s * (t1 - t0);
  }

  lemma FractionOf(t0: real, t1: real, t: real)
    requires t0 <= t <= t1 && t0 < t1
    ensures var s := (t - t0) / (t1 - t0); 0.0 <= s <= 1.0 && Between(t0, t1, s) == t
  {
    var s := (t - t0) / (t1 - t0);
    assert s * (t1 - t0) == t - t0;
    SignOfProduct(-s, t1 - t0);
    SignOfProduct(s - 1.0, t1 - t0);
    assert (-s) * (t1 - t0) == t0 - t;
    assert (s - 1.0) * (t1 - t0) == t - t1;
  }

  function Fraction(t0: real, t1: real, t: real): (s: real)
    requires t0 <= t <= t1
    ensures 0.0 <= s <= 1.0 && Between(t0, t1, s) == t
  {
    if t0 < t1 then
      FractionOf(t0, t1, t);
      (t - t0) / (t1 - t0)
    else 0.0
  }

  // ---- the orientation of a polygon --------------------------------------------------

  function Cross(p: Point, q: Point): real {
    p.x * q.y - q.x * p.y
  }

  /** Twice the area an open chain of points sweeps around the origin. */
  function Chain(points: seq<Point>): real {
    if |points| < 2 then 0.0
    else Chain(points[..|points| - 1]) + Cross(points[|points| - 2], points[|points| - 1])
  }

  /** The shoelace area of a closed polygon. */
  function Area(points: seq<Point>): real {
    if points == [] then 0.0 else (Chain(points) + Cross(points[|points| - 1], points[0])) / 2.0
  }

  method SignedArea(points: seq<Point>) returns (area: real)
    ensures area == Area(points)
  {
    hide Cross;
    area := 0.0;
    var n := |points|;
    ghost var loop := if n == 0 then [] else points + [points[0]];
    for index := 0 to n
      invariant area == Chain(loop[..if n == 0 then 0 else index + 1])
    {
      var next := points[(index + 1) % n];
      WrapAround(index + 1, n);
      assert loop[..index + 2][..index + 1] == loop[..index + 1];
      area := area + Cross(points[index], next);
    }
    area := area / 2.0;
    if n > 0 {
      assert loop[..n + 1] == loop && loop[..n] == points;
    }
  }

  lemma WrapAround(i: nat, n: nat)
    requires 0 < i <= n
    ensures i % n == if i == n then 0 else i
  {
    if i < n {
      ModuloUnique(i, n, i, 0);
    } else {
      ModuloUnique(i, n, 0, 1);
    }
  }

  function Reversed(points: seq<Point>): (r: seq<Point>)
    ensures |r| == |points|
    ensures forall i :: 0 <= i < |r| ==> r[i] == points[|points| - 1 - i]
  {
    seq(|points|, i requires 0 <= i < |points| => points[|points| - 1 - i])
  }

  lemma {:induction false} ChainFront(p: Point, points: seq<Point>)
    requires points != []
    ensures Chain([p] + points) == Cross(p, points[0]) + Chain(points)
  {
    hide Cross;
    var whole := [p] + points;
    if |points| == 1 {
      assert whole[..1] == [p];
    } else {
      var rest := points[..|points| - 1];
      ChainFront(p, rest);
      assert whole[..|whole| - 1] == [p] + rest;
    }
  }

  lemma {:induction false} ChainReversed(points: seq<Point>)
    ensures Chain(Reversed(points)) == -Chain(points)
  {
    if |points| >= 2 {
      var rest, last := points[..|points| - 1], points[|points| - 1];
      ChainReversed(rest);
      ChainFront(last, Reversed(rest));
      assert Reversed(points) == [last] + Reversed(rest);
      assert Cross(last, rest[|rest| - 1]) == -Cross(rest[|rest| - 1], last);
    }
  }

  /** Reversing a polygon negates its area. */
  lemma AreaReversed(points: seq<Point>)
    ensures Area(Reversed(points)) == -Area(points)
  {
    if points != [] {
      ChainReversed(points);
      var first, last := points[0], points[|points| - 1];
      assert Cross(first, last) == -Cross(last, first);
    }
  }

  /** The area of a triangle is half of what its two sides from one corner span, positive
      when they turn counterclockwise. */
  lemma TriangleArea(a: Point, b: Point, c: Point)
    ensures Area([a, b, c]) == ((b.x - a.x) * (c.y - a.y) - (c.x - a.x) * (b.y - a.y)) / 2.0
  {
    var points := [a, b, c];
    ChainOfThree(points);
    assert Area(points) == (Cross(a, b) + Cross(b, c) + Cross(c, a)) / 2.0;
    TriangleExpands(a, b, c);
    hide Cross, Chain, Area;
  }

  lemma TriangleExpands(a: Point, b: Point, c: Point)
    ensures Cross(a, b) + Cross(b, c) + Cross(c, a) == (b.x - a.x) * (c.y - a.y) - (c.x - a.x) * (b.y - a.y)
  {
  }

  /** Each further corner adds the triangle it makes with the first and the last corner, so
      the area of a polygon is that of a fan of triangles. */
  lemma FanArea(points: seq<Point>)
    requires |points| >= 3
    ensures var n := |points|;
            Area(points) == Area(points[..n - 1]) + Area([points[0], points[n - 2], points[n - 1]])
  {
    var n := |points|;
    var rest, a, b, c := points[..n - 1], points[0], points[n - 2], points[n - 1];
    var triangle := [a, b, c];
    ChainOfThree(triangle);
    assert Chain(points) == Chain(rest) + Cross(b, c);
    assert Cross(b, a) == -Cross(a, b);
    hide Cross, Chain;
  }

  lemma FewCorners(points: seq<Point>)
    requires |points| < 3
    ensures Area(points) == 0.0
  {
    if |points| == 2 {
      ChainOfTwo(points);
    }
  }

  lemma ChainOfTwo(points: seq<Point>)
    requires |points| == 2
    ensures Chain(points) == Cross(points[0], points[1])
  {
    assert Chain(points[..1]) == 0.0;
  }

  lemma ChainOfThree(points: seq<Point>)
    requires |points| == 3
    ensures Chain(points) == Cross(points[0], points[1]) + Cross(points[1], points[2])
  {
    ChainOfTwo(points[..2]);
  }

  datatype Command = Move(to: Point) | Line(to: Point) | CloseLoop

  /** The commands that trace a closed polygon. */
  function Traced(points: seq<Point>): (ops: seq<Command>)
    requires points != []
    ensures |ops| == |points| + 1 && ops[0] == Move(points[0]) && ops[|points|] == CloseLoop
    ensures forall i :: 1 <= i < |points| ==> ops[i] == Line(points[i])
  {
    [Move(points[0])] + seq(|points| - 1, i requires 0 <= i < |points| - 1 => Line(points[i + 1])) + [CloseLoop]
  }

  /** The least box around points; None around no point. */
  datatype Bounds = Empty | Within(box: Box)

  function Including(bounds: Bounds, p: Point): (r: Bounds)
    ensures r.Within? && Inside(p, r.box)
  {
    match bounds
    case Empty => Within(Box(p.x, p.y, p.x, p.y))
    case Within(b) =>
      Within(Box(if p.x < b.minX then p.x else b.minX, if p.y < b.minY then p.y else b.minY,
                 if p.x > b.maxX then p.x else b.maxX, if p.y > b.maxY then p.y else b.maxY))
  }

  /** A box that holds all the points, and lies in every other box that does. */
  ghost predicate Tight(bounds: Bounds, points: seq<Point>) {
    if points == [] then bounds.Empty?
    else
      bounds.Within? && (forall i :: 0 <= i < |points| ==> Inside(points[i], bounds.box))
      && forall box: Box :: AllInside(points, box) ==> Covers(box, bounds.box)
  }

  ghost predicate AllInside(points: seq<Point>, box: Box) {
    forall i :: 0 <= i < |points| ==> Inside(points[i], box)
  }

  predicate Covers(outer: Box, inner: Box) {
    outer.minX <= inner.minX && outer.minY <= inner.minY && inner.maxX <= outer.maxX && inner.maxY <= outer.maxY
  }

  lemma IncludingTight(bounds: Bounds, points: seq<Point>, p: Point)
    requires Tight(bounds, points)
    ensures Tight(Including(bounds, p), points + [p])
  {
    var more, wider := points + [p], Including(bounds, p);
    assert more[|points|] == p;
    forall i | 0 <= i < |more|
      ensures Inside(more[i], wider.box)
    {
      assert i < |points| ==> Inside(points[i], bounds.box);
    }
    forall box: Box | AllInside(more, box)
      ensures Covers(box, wider.box)
    {
      assert Inside(more[|points|], box);
      assert AllInside(points, box) by {
        assert forall i :: 0 <= i < |points| ==> points[i] == more[i];
      }
    }
  }

  /** The closed loops of one shape and the box around them. */
  class ShapePath {
    var ops: seq<Command>
    var bounds: Bounds
    ghost var points: seq<Point>   // every point included so far

    ghost predicate Valid()
      reads this
    {
      Tight(bounds, points)
    }

    constructor ()
      ensures Valid() && ops == [] && points == []
    {
      ops, bounds, points := [], Empty, [];
    }

    method Include(p: Point)
      requires Valid()
      modifies this`bounds, this`points
      ensures Valid() && points == old(points) + [p]
    {
      IncludingTight(bounds, points, p);
      bounds := Including(bounds, p);
      points := points + [p];
    }

    /** Adds a closed polygon, counterclockwise unless it is a hole. A polygon of
        fewer than three points or of no area adds nothing. */
    method Polygon(corners: seq<Point>, hole: bool)
      requires Valid()
      modifies this
      ensures Valid()
      ensures if |corners| < 3 || Area(corners) == 0.0 then
                ops == old(ops) && points == old(points) && bounds == old(bounds)
              else
                ops == old(ops) + Traced(Oriented(corners, hole)) && points == old(points) + Oriented(corners, hole)
    {
      hide Area, Tight, Traced;
      if |corners| < 3 {
        return;
      }
      var area := SignedArea(corners);
      if area == 0.0 {
        return;
      }
      var turned := corners;
      if (area < 0.0) != hole {
        turned := Reversed(corners);
      }
      Trace(turned);
    }

    method Trace(turned: seq<Point>)
      requires Valid() && turned != []
      modifies this
      ensures Valid() && ops == old(ops) + Traced(turned) && points == old(points) + turned
    {
      hide Tight, Including, Traced;
      ops := ops + [Move(turned[0])];
      Include(turned[0]);
      for i := 1 to |turned|
        invariant Valid() && points == old(points) + turned[..i]
        invariant ops == old(ops) + Traced(turned)[..i]
      {
        ops := ops + [Line(turned[i])];
        Include(turned[i]);
        assert turned[..i + 1] == turned[..i] + [turned[i]];
        assert Traced(turned)[..i + 1] == Traced(turned)[..i] + [Line(turned[i])];
      }
      ops := ops + [CloseLoop];
      assert turned[..|turned|] == turned;
      assert Traced(turned) == Traced(turned)[..|turned|] + [CloseLoop];
    }
  }

  function Oriented(corners: seq<Point>, hole: bool): (turned: seq<Point>)
    ensures corners != [] ==> turned != []
  {
    if (Area(corners) < 0.0) != hole then Reversed(corners) else corners
  }

  /** Every loop that adds coverage turns one way and every hole the other, and
      neither changes the size of its area. */
  lemma OrientedArea(corners: seq<Point>, hole: bool)
    requires Area(corners) != 0.0
    ensures var area, was := Area(Oriented(corners, hole)), Area(corners);
            if hole then area == -(if was < 0.0 then -was else was) else area == if was < 0.0 then -was else was
  {
    AreaReversed(corners);
  }

  // ---- canvas and pixels -----------------------------------------------------------

  datatype Transform = Transform(width: real, height: real, scale: real)
  {
    /** Canvas coordinates count from the middle upwards, pixel coordinates from a corner downwards. */
    function Pixel(p: Point): Point {
      Point((p.x + width / 2.0) * scale, (height / 2.0 - p.y) * scale)
    }

    function Pixels(points: seq<Point>): (r: seq<Point>)
      ensures |r| == |points| && forall i :: 0 <= i < |r| ==> r[i] == Pixel(points[i])
    {
      seq(|points|, i requires 0 <= i < |points| => Pixel(points[i]))
    }
  }

  /** The canvas's upper left corner is drawn at the origin and its lower right one at the
      far corner; distances scale, with y turned over. */
  lemma PixelsFill(t: Transform, p: Point, q: Point)
    ensures t.Pixel(Point(-t.width / 2.0, t.height / 2.0)) == Point(0.0, 0.0)
    ensures t.Pixel(Point(t.width / 2.0, -t.height / 2.0)) == Point(t.width * t.scale, t.height * t.scale)
    ensures t.Pixel(q).x - t.Pixel(p).x == t.scale * (q.x - p.x)
    ensures t.Pixel(q).y - t.Pixel(p).y == t.scale * (p.y - q.y)
  {
  }

  /** What a cross product becomes: scaled, turned over, and shifted by terms that
      cancel around a closed loop. */
  lemma CrossOfPixels(t: Transform, p: Point, q: Point)
    ensures Cross(t.Pixel(p), t.Pixel(q)) == t.scale * t.scale * (Drift(t, q) - Drift(t, p) - Cross(p, q))
  {
    var w, h, s := t.width / 2.0, t.height / 2.0, t.scale;
    CrossExpands(w, h, p, q);
    Factor((p.x + w), (h - q.y), (q.x + w), (h - p.y), s);
  }

  lemma Factor(a: real, b: real, c: real, d: real, s: real)
    ensures (a * s) * (b * s) - (c * s) * (d * s) == s * s * (a * b - c * d)
  {
  }

  lemma CrossExpands(w: real, h: real, p: Point, q: Point)
    ensures (p.x + w) * (h - q.y) - (q.x + w) * (h - p.y) == (-h * q.x - w * q.y) - (-h * p.x - w * p.y) - Cross(p, q)
  {
  }

  function Drift(t: Transform, p: Point): real {
    -(t.height / 2.0) * p.x - (t.width / 2.0) * p.y
  }

  lemma {:induction false} ChainOfPixels(t: Transform, points: seq<Point>)
    requires points != []
    ensures Chain(t.Pixels(points)) ==
            t.scale * t.scale * (Drift(t, points[|points| - 1]) - Drift(t, points[0]) - Chain(points))
  {
    hide Cross, Drift;
    var n, pixels := |points|, t.Pixels(points);
    if n >= 2 {
      var rest := points[..n - 1];
      ChainOfPixels(t, rest);
      assert pixels[..n - 1] == t.Pixels(rest);
      CrossOfPixels(t, points[n - 2], points[n - 1]);
    }
  }

  /** Drawing turns every polygon over and scales its area by the square of the scale. */
  lemma AreaOfPixels(t: Transform, points: seq<Point>)
    ensures Area(t.Pixels(points)) == -(t.scale * t.scale) * Area(points)
  {
    hide Cross, Drift, Chain;
    if points != [] {
      ChainOfPixels(t, points);
      CrossOfPixels(t, points[|points| - 1], points[0]);
    }
  }
}
