/** The chart viewer's transform, over exact reals: zooming, panning, turning and
    following the window. */
module PlotView {

  const MIN_ZOOM_OF_FIT := 0.25
  const MAX_ZOOM := 16.0

  function Least(a: real, b: real): real { if a < b then a else b }

  function Greatest(a: real, b: real): real { if a > b then a else b }

  function Scaled(size: real, zoom: real): real { size * zoom }

  function Ratio(a: real, b: real): real
    requires b != 0.0
  {
    a / b
  }

  /** Where an axis is drawn: centered when it fits, else never leaving a gap. */
  function ClampAxis(center: real, drawn: real, window: real): real {
    if drawn <= window then window / 2.0 else Least(drawn / 2.0, Greatest(window - drawn / 2.0, center))
  }

  /** An axis is centered, or covers the whole window. */
  predicate AxisGood(center: real, drawn: real, window: real) {
    if drawn <= window then center == window / 2.0
    else center - drawn / 2.0 <= 0.0 && window <= center + drawn / 2.0
  }

  /** Clamping makes an axis good and leaves a good one alone. */
  lemma ClampAxisGood(center: real, drawn: real, window: real)
    ensures AxisGood(ClampAxis(center, drawn, window), drawn, window)
    ensures ClampAxis(center, drawn, window) == center <==> AxisGood(center, drawn, window)
  {
  }

  /** Clamping moves an axis no further than it must. */
  lemma ClampAxisNearest(center: real, drawn: real, window: real, good: real)
    requires AxisGood(good, drawn, window)
    ensures Apart(center, ClampAxis(center, drawn, window)) <= Apart(center, good)
  {
  }

  function Apart(a: real, b: real): real { if a < b then b - a else a - b }

  datatype Pose = Pose(
    imageW: real, imageH: real, windowW: real, windowH: real,
    zoom: real, centerX: real, centerY: real, quarters: int, touched: bool)
  {
    ghost predicate Sized() {
      imageW >= 1.0 && imageH >= 1.0 && windowW >= 1.0 && windowH >= 1.0 && 0 <= quarters < 4
    }

    /** The image's drawn size at zoom 1: a quarter turn swaps its sides. */
    function Turned(): (size: (real, real))
      ensures imageW >= 1.0 && imageH >= 1.0 ==> size.0 >= 1.0 && size.1 >= 1.0
    {
      if quarters % 2 == 1 then (imageH, imageW) else (imageW, imageH)
    }

    /** The largest zoom, 1 at most, at which both sides of the image fit the window. */
    function Fit(): real
      requires imageW >= 1.0 && imageH >= 1.0
    {
      Least(1.0, Least(Ratio(windowW, Turned().0), Ratio(windowH, Turned().1)))
    }

    function MinZoom(): real
      requires imageW >= 1.0 && imageH >= 1.0
    {
      Fit() * MIN_ZOOM_OF_FIT
    }

    function ZoomInRange(z: real): real
      requires imageW >= 1.0 && imageH >= 1.0
    {
      Least(MAX_ZOOM, Greatest(MinZoom(), z))
    }

    function Clamped(): Pose {
      this.(centerX := ClampAxis(centerX, Scaled(Turned().0, zoom), windowW),
            centerY := ClampAxis(centerY, Scaled(Turned().1, zoom), windowH))
    }

    function Fitted(): Pose
      requires imageW >= 1.0 && imageH >= 1.0
    {
      this.(zoom := Fit(), centerX := windowW / 2.0, centerY := windowH / 2.0)
    }

    /** The invariant of every view. */
    ghost predicate Good() {
      && Sized() && MinZoom() <= zoom <= MAX_ZOOM
      && AxisGood(centerX, Scaled(Turned().0, zoom), windowW) && AxisGood(centerY, Scaled(Turned().1, zoom), windowH)
      && (!touched ==> this == Fitted())
    }
  }

  lemma FitFacts(p: Pose)
    requires p.Sized()
    ensures 0.0 < p.Fit() <= 1.0 && 0.0 < p.MinZoom() <= p.Fit()
    ensures Scaled(p.Turned().0, p.Fit()) <= p.windowW && Scaled(p.Turned().1, p.Fit()) <= p.windowH
  {
    var (w, h) := p.Turned();
    RatioFacts(p.windowW, w);
    RatioFacts(p.windowH, h);
    ScaledGrows(w, p.Fit(), Ratio(p.windowW, w));
    ScaledGrows(h, p.Fit(), Ratio(p.windowH, h));
  }

  /** No larger zoom up to 1 shows the whole image. */
  lemma FitLargest(p: Pose, zoom: real)
    requires p.Sized() && zoom <= 1.0
    requires Scaled(p.Turned().0, zoom) <= p.windowW && Scaled(p.Turned().1, zoom) <= p.windowH
    ensures zoom <= p.Fit()
  {
    var (w, h) := p.Turned();
    RatioFacts(p.windowW, w);
    RatioFacts(p.windowH, h);
    ScaledBelow(w, zoom, Ratio(p.windowW, w));
    ScaledBelow(h, zoom, Ratio(p.windowH, h));
    hide Scaled, Ratio;
  }

  lemma ScaledBelow(size: real, a: real, b: real)
    requires size >= 1.0 && Scaled(size, a) <= Scaled(size, b)
    ensures a <= b
  {
    if a > b {
      ScaledStrictly(size, b, a);
    }
  }

  lemma ScaledStrictly(size: real, a: real, b: real)
    requires size >= 1.0 && a < b
    ensures Scaled(size, a) < Scaled(size, b)
  {
    assert size * (b - a) > 0.0;
  }

  /** Every quarter turn exchanges the sides of the image as it is drawn. */
  lemma TurnExchanges(p: Pose)
    requires p.Sized()
    ensures var (w, h) := p.Turned(); p.(quarters := (p.quarters + 1) % 4).Turned() == (h, w)
    ensures p.quarters == 0 ==> p.Turned() == (p.imageW, p.imageH)
  {
  }

  lemma RatioFacts(a: real, b: real)
    requires a >= 1.0 && b >= 1.0
    ensures Ratio(a, b) > 0.0 && Scaled(b, Ratio(a, b)) == a
  {
    var r := a / b;
    assert r * b == a;
    if r <= 0.0 {
      ScaledGrows(b, r, 0.0);
    }
  }

  lemma ScaledGrows(size: real, a: real, b: real)
    requires size >= 0.0 && a <= b
    ensures Scaled(size, a) <= Scaled(size, b)
  {
    assert size * (b - a) >= 0.0;
  }

  /** The fitted view is good, touched or not. */
  lemma FittedGood(p: Pose)
    requires p.Sized()
    ensures p.Fitted().Good()
  {
    FitFacts(p);
    var f := p.Fitted();
    assert f.Turned() == p.Turned() && f.Fit() == p.Fit();
    hide Scaled, Ratio;
  }

  /** Clamping makes a touched view in range good and leaves a good one alone. */
  lemma ClampedGood(p: Pose)
    requires p.Sized() && p.MinZoom() <= p.zoom <= MAX_ZOOM && p.touched
    ensures p.Clamped().Good() && (p.Clamped() == p <==> p.Good())
  {
    hide Scaled, Ratio;
    var c := p.Clamped();
    assert c.Turned() == p.Turned() && c.Fit() == p.Fit();
    ClampAxisGood(p.centerX, Scaled(p.Turned().0, p.zoom), p.windowW);
    ClampAxisGood(p.centerY, Scaled(p.Turned().1, p.zoom), p.windowH);
  }

  lemma InRange(p: Pose, z: real)
    requires p.Sized()
    ensures p.MinZoom() <= p.ZoomInRange(z) <= MAX_ZOOM
    ensures p.ZoomInRange(z) == z <==> p.MinZoom() <= z <= MAX_ZOOM
  {
    FitFacts(p);
    hide Scaled, Ratio;
  }

  // ---- zooming -----------------------------------------------------------------------

  /** The center that keeps the point x where it is. */
  function Anchored(center: real, x: real, zoom: real, next: real): real
    requires zoom != 0.0
  {
    x - (x - center) * next / zoom
  }

  /** The image coordinate shown at a window coordinate, from the image's center. */
  function ShownAt(center: real, zoom: real, x: real): real
    requires zoom != 0.0
  {
    (x - center) / zoom
  }

  lemma AnchoredShows(center: real, x: real, zoom: real, next: real)
    requires zoom > 0.0 && next > 0.0
    ensures ShownAt(Anchored(center, x, zoom, next), next, x) == ShownAt(center, zoom, x)
  {
    var d := x - center;
    var u := d / zoom;
    assert u * zoom == d;
    QuotientIs(d * next, zoom, u * next);
    assert d * next == u * next * zoom;
    QuotientIs(u * next, next, u);
  }

  lemma QuotientIs(n: real, d: real, q: real)
    requires d != 0.0 && n == q * d
    ensures n / d == q
  {
    var r := n / d;
    assert r * d == n;
    assert (r - q) * d == 0.0;
    NoZeroProduct(r - q, d);
  }

  lemma NoZeroProduct(a: real, b: real)
    requires a * b == 0.0 && b != 0.0
    ensures a == 0.0
  {
  }

  /** Only one center shows an image coordinate at a window coordinate. */
  lemma ShownAtInjective(a: real, b: real, zoom: real, x: real)
    requires zoom != 0.0 && ShownAt(a, zoom, x) == ShownAt(b, zoom, x)
    ensures a == b
  {
    assert (x - a) / zoom * zoom == x - a;
    assert (x - b) / zoom * zoom == x - b;
  }

  function Zoomed(p: Pose, factor: real, x: real, y: real): Pose
    requires p.imageW >= 1.0 && p.imageH >= 1.0 && p.zoom != 0.0
  {
    var next := p.ZoomInRange(Scaled(p.zoom, factor));
    if factor <= 0.0 || next == p.zoom then p else
      p.(centerX := Anchored(p.centerX, x, p.zoom, next), centerY := Anchored(p.centerY, y, p.zoom, next),
         zoom := next, touched := true).Clamped()
  }

  /** The zoom is multiplied by the factor, up to the two bounds. */
  lemma ZoomFactor(p: Pose, factor: real, x: real, y: real)
    requires p.Good() && factor > 0.0
    ensures p.zoom > 0.0
    ensures var z, next := Zoomed(p, factor, x, y), p.zoom * factor;
            && z.zoom == (if next < p.MinZoom() then p.MinZoom() else if next > MAX_ZOOM then MAX_ZOOM else next)
            && (z.zoom == p.zoom ==> z == p)
            && z == p.(zoom := z.zoom, centerX := z.centerX, centerY := z.centerY, touched := z.touched)
  {
    FitFacts(p);
    assert Scaled(p.zoom, factor) == p.zoom * factor;
    hide Scaled, Ratio, Anchored, ClampAxis, AxisGood, Pose.Fit, Pose.Turned;
  }

  /** Zooming keeps the invariant, and the image point under the cursor stays put
      on an axis exactly when the anchored center needs no clamping there. */
  lemma ZoomKeepsPoint(p: Pose, factor: real, x: real, y: real)
    requires p.Good()
    ensures p.zoom > 0.0
    ensures var z := Zoomed(p, factor, x, y);
            && z.Good() && z.zoom > 0.0
            && (z != p ==>
                  && (ShownAt(z.centerX, z.zoom, x) == ShownAt(p.centerX, p.zoom, x) <==>
                      AxisGood(Anchored(p.centerX, x, p.zoom, z.zoom), Scaled(p.Turned().0, z.zoom), p.windowW))
                  && (ShownAt(z.centerY, z.zoom, y) == ShownAt(p.centerY, p.zoom, y) <==>
                      AxisGood(Anchored(p.centerY, y, p.zoom, z.zoom), Scaled(p.Turned().1, z.zoom), p.windowH)))
  {
    FitFacts(p);
    hide Scaled, Ratio, Anchored, ShownAt;
    var z := Zoomed(p, factor, x, y);
    if z != p {
      var next := p.ZoomInRange(Scaled(p.zoom, factor));
      InRange(p, Scaled(p.zoom, factor));
      var anchored := p.(centerX := Anchored(p.centerX, x, p.zoom, next),
                         centerY := Anchored(p.centerY, y, p.zoom, next),
                         zoom := next, touched := true);
      ClampedGood(anchored);
      AxisKeepsPoint(p.centerX, x, p.zoom, next, Scaled(p.Turned().0, next), p.windowW);
      AxisKeepsPoint(p.centerY, y, p.zoom, next, Scaled(p.Turned().1, next), p.windowH);
    }
  }

  lemma AxisKeepsPoint(center: real, x: real, zoom: real, next: real, drawn: real, window: real)
    requires zoom > 0.0 && next > 0.0
    ensures var anchored := Anchored(center, x, zoom, next);
            ShownAt(ClampAxis(anchored, drawn, window), next, x) == ShownAt(center, zoom, x) <==>
            AxisGood(anchored, drawn, window)
  {
    hide Anchored, ShownAt;
    var anchored := Anchored(center, x, zoom, next);
    AnchoredShows(center, x, zoom, next);
    ClampAxisGood(anchored, drawn, window);
    if ShownAt(ClampAxis(anchored, drawn, window), next, x) == ShownAt(anchored, next, x) {
      ShownAtInjective(ClampAxis(anchored, drawn, window), anchored, next, x);
    }
  }

  /** A view that loses the point: a fitted 800 by 600 image zoomed out at a point off its
      center becomes smaller than the window and is centered. */
  lemma ZoomLosesPoint() returns (p: Pose)
    ensures p == Pose(800.0, 600.0, 800.0, 600.0, 1.0, 400.0, 300.0, 0, false) && p.Good()
    ensures var z := Zoomed(p, 0.5, 600.0, 450.0);
            && z.Good() && z.zoom == 0.5 && z != p
            && ShownAt(z.centerX, z.zoom, 600.0) == 400.0 && ShownAt(p.centerX, p.zoom, 600.0) == 200.0
  {
    p := Pose(800.0, 600.0, 800.0, 600.0, 1.0, 400.0, 300.0, 0, false);
    FittedWhole(p);
    ZoomKeepsPoint(p, 0.5, 600.0, 450.0);
    hide Anchored, Pose.Fit;
    assert Scaled(800.0, 0.5) == 400.0 && Scaled(600.0, 0.5) == 300.0;
  }

  /** An image as large as its window is shown whole at zoom 1. */
  lemma FittedWhole(p: Pose)
    requires p.Sized() && p.Turned() == (p.windowW, p.windowH) && p.zoom == 1.0 && !p.touched
    requires p.centerX == p.windowW / 2.0 && p.centerY == p.windowH / 2.0
    ensures p.Fit() == 1.0 && p.Good()
  {
    QuotientIs(p.windowW, p.windowW, 1.0);
    QuotientIs(p.windowH, p.windowH, 1.0);
    hide Ratio;
  }

  // ---- panning, turning and resizing ---------------------------------------------------

  function Panned(p: Pose, dx: real, dy: real): Pose {
    p.(centerX := p.centerX + dx, centerY := p.centerY + dy, touched := true).Clamped()
  }

  lemma PanGood(p: Pose, dx: real, dy: real)
    requires p.Good()
    ensures Panned(p, dx, dy).Good()
  {
    hide Scaled, Ratio;
    var moved := p.(centerX := p.centerX + dx, centerY := p.centerY + dy, touched := true);
    assert moved.Fit() == p.Fit();
    ClampedGood(moved);
  }

  /** A pan carries the image along: what was shown at x is shown dx further exactly when
      its axis needs no clamping there. */
  lemma PanMovesPoint(p: Pose, dx: real, dy: real, x: real, y: real)
    requires p.Good()
    ensures p.zoom > 0.0
    ensures var r := Panned(p, dx, dy);
            && r == p.(centerX := r.centerX, centerY := r.centerY, touched := true)
            && (ShownAt(r.centerX, r.zoom, x + dx) == ShownAt(p.centerX, p.zoom, x) <==>
                AxisGood(p.centerX + dx, Scaled(p.Turned().0, p.zoom), p.windowW))
            && (ShownAt(r.centerY, r.zoom, y + dy) == ShownAt(p.centerY, p.zoom, y) <==>
                AxisGood(p.centerY + dy, Scaled(p.Turned().1, p.zoom), p.windowH))
  {
    FitFacts(p);
    hide Scaled, Ratio;
    AxisPans(p.centerX, dx, p.zoom, Scaled(p.Turned().0, p.zoom), p.windowW, x);
    AxisPans(p.centerY, dy, p.zoom, Scaled(p.Turned().1, p.zoom), p.windowH, y);
    hide ShownAt, ClampAxis, AxisGood;
  }

  lemma AxisPans(center: real, d: real, zoom: real, drawn: real, window: real, x: real)
    requires zoom > 0.0
    ensures ShownAt(ClampAxis(center + d, drawn, window), zoom, x + d) == ShownAt(center, zoom, x) <==>
            AxisGood(center + d, drawn, window)
  {
    ClampAxisGood(center + d, drawn, window);
    assert ShownAt(center + d, zoom, x + d) == ShownAt(center, zoom, x);
    hide ShownAt, AxisGood, ClampAxis;
    if ShownAt(ClampAxis(center + d, drawn, window), zoom, x + d) == ShownAt(center + d, zoom, x + d) {
      ShownAtInjective(ClampAxis(center + d, drawn, window), center + d, zoom, x + d);
    }
  }

  function Rotated(p: Pose, direction: int): Pose
    requires p.imageW >= 1.0 && p.imageH >= 1.0
  {
    var t := p.(quarters := (p.quarters + direction) % 4);
    var z := if p.touched then t.zoom else t.Fit();
    t.(zoom := t.ZoomInRange(z)).Clamped()
  }

  lemma RotateGood(p: Pose, direction: int)
    requires p.Good()
    ensures Rotated(p, direction).Good()
  {
    hide Scaled, Ratio;
    var t := p.(quarters := (p.quarters + direction) % 4);
    FitFacts(t);
    InRange(t, if p.touched then t.zoom else t.Fit());
    if p.touched {
      var ranged := t.(zoom := t.ZoomInRange(t.zoom));
      assert ranged.Fit() == t.Fit();
      ClampedGood(ranged);
    } else {
      FittedGood(t);
    }
  }

  /** A turn changes the quarters, and of a touched view nothing else that is still in bounds. */
  lemma RotateKeeps(p: Pose, direction: int)
    requires p.Good()
    ensures var r, t := Rotated(p, direction), p.(quarters := (p.quarters + direction) % 4);
            && r == t.(zoom := r.zoom, centerX := r.centerX, centerY := r.centerY)
            && (p.touched && t.MinZoom() <= p.zoom ==> r.zoom == p.zoom)
            && (p.touched && p.zoom < t.MinZoom() ==> r.zoom == t.MinZoom())
            && (AxisGood(p.centerX, Scaled(t.Turned().0, r.zoom), p.windowW) ==> r.centerX == p.centerX)
            && (AxisGood(p.centerY, Scaled(t.Turned().1, r.zoom), p.windowH) ==> r.centerY == p.centerY)
  {
    hide Scaled, Ratio;
    var t := p.(quarters := (p.quarters + direction) % 4);
    FitFacts(t);
  }

  /** An untouched view is decided by its image, its window and its turn: turning
      it keeps it fitted and centered. */
  lemma RotateUntouched(p: Pose, direction: int)
    requires p.Good() && !p.touched
    ensures Rotated(p, direction) == p.(quarters := (p.quarters + direction) % 4).Fitted()
  {
    RotateGood(p, direction);
    hide Scaled, Ratio;
    var t := p.(quarters := (p.quarters + direction) % 4);
    var r := Rotated(p, direction);
    assert r == t.(zoom := r.zoom, centerX := r.centerX, centerY := r.centerY);
    assert r.Fit() == t.Fit();
  }

  /** Turning an untouched view and back undoes the turn. */
  lemma RotateBackUntouched(p: Pose, direction: int)
    requires p.Good() && !p.touched
    ensures Rotated(p, direction).Good() && Rotated(Rotated(p, direction), -direction) == p
  {
    RotateGood(p, direction);
    RotateUntouched(p, direction);
    var r := Rotated(p, direction);
    RotateUntouched(r, -direction);
    TurnBack(p.quarters, direction);
    hide Scaled, Ratio, Rotated, Pose.Good, Pose.Fit;
    FittedOnly(r.(quarters := p.quarters), p);
    UntouchedFitted(p);
  }

  lemma UntouchedFitted(p: Pose)
    requires p.Good() && !p.touched
    ensures p == p.Fitted() && 0 <= p.quarters < 4
  {
  }

  lemma TurnBack(q: int, direction: int)
    requires 0 <= q < 4
    ensures ((q + direction) % 4 - direction) % 4 == q
  {
  }

  /** The fitted view depends on the image, the window and the turn only. */
  lemma FittedOnly(a: Pose, b: Pose)
    requires a.imageW == b.imageW >= 1.0 && a.imageH == b.imageH >= 1.0 && a.quarters == b.quarters
    requires a.windowW == b.windowW && a.windowH == b.windowH && a.touched == b.touched
    ensures a.Fitted() == b.Fitted()
  {
  }

  /** A touched view keeps its zoom over a turn and back exactly when the zoom is in
      range for the turned image too. */
  lemma RotateBackZoom(p: Pose, direction: int)
    requires p.Good() && p.touched
    ensures var t := p.(quarters := (p.quarters + direction) % 4);
            Rotated(Rotated(p, direction), -direction).zoom == p.zoom <==> t.MinZoom() <= p.zoom
    ensures Rotated(Rotated(p, direction), -direction).quarters == p.quarters
  {
    hide Scaled, Ratio;
    var t := p.(quarters := (p.quarters + direction) % 4);
    InRange(t, p.zoom);
    var r := Rotated(p, direction);
    var b := r.(quarters := (r.quarters - direction) % 4);
    assert b.Fit() == p.Fit();
    InRange(b, r.zoom);
  }

  /** A view whose zoom a turn and back does not restore: a tall image in a wide window,
      zoomed in and out again, comes back two and a half times as large. */
  lemma RotateLosesZoom() returns (start: Pose, p: Pose)
    ensures start == Pose(100.0, 1000.0, 1000.0, 100.0, 0.1, 500.0, 50.0, 0, false) && start.Good()
    ensures p == Zoomed(Zoomed(start, 2.0, 500.0, 50.0), 0.5, 500.0, 50.0) && p.Good() && p.touched && p.zoom == 0.1
    ensures Rotated(Rotated(p, 1), -1).zoom == 0.25
  {
    start, p := TALL, TALL.(touched := true);
    TallInAndOut();
    TallTurned();
    hide Zoomed, Rotated;
  }

  const TALL := Pose(100.0, 1000.0, 1000.0, 100.0, 0.1, 500.0, 50.0, 0, false)

  lemma TallInAndOut()
    ensures TALL.Good() && TALL.(touched := true).Good()
    ensures Zoomed(Zoomed(TALL, 2.0, 500.0, 50.0), 0.5, 500.0, 50.0) == TALL.(touched := true)
  {
    CenterZoom(TALL, 0.1, 2.0, 0.2);
    CenterZoom(TALL.(zoom := 0.2, touched := true), 0.2, 0.5, 0.1);
    hide Zoomed;
  }

  /** Zooming the tall image at its center, as long as it stays within the window. */
  lemma CenterZoom(p: Pose, zoom: real, factor: real, next: real)
    requires p == TALL.(zoom := zoom, touched := p.touched) && factor > 0.0 && zoom * factor == next
    requires 0.1 <= zoom <= 0.2 && 0.1 <= next <= 0.2 && next != zoom
    ensures Zoomed(p, factor, 500.0, 50.0) == p.(zoom := next, touched := true)
  {
    assert p.Fit() == 0.1;
    assert p.ZoomInRange(Scaled(zoom, factor)) == next;
    assert Anchored(500.0, 500.0, zoom, next) == 500.0 && Anchored(50.0, 50.0, zoom, next) == 50.0;
    hide Scaled, Ratio, Anchored;
    TallCentered(next);
  }

  lemma TallCentered(zoom: real)
    requires 0.1 <= zoom <= 0.2
    ensures var p := TALL.(zoom := zoom, touched := true); p.Clamped() == p
  {
  }

  lemma TallTurned()
    ensures Rotated(Rotated(TALL.(touched := true), 1), -1).zoom == 0.25
  {
    var turned := Rotated(TALL.(touched := true), 1);
    assert turned.zoom == 0.25 && turned.quarters == 1;
    hide Rotated;
    TurnedBackZoom(turned);
  }

  /** In its first position the tall image may be as small as a fortieth. */
  lemma TurnedBackZoom(p: Pose)
    requires p.imageW == 100.0 && p.imageH == 1000.0 && p.windowW == 1000.0 && p.windowH == 100.0
    requires p.zoom == 0.25 && p.quarters == 1 && p.touched
    ensures Rotated(p, -1).zoom == 0.25
  {
  }

  function Resized(p: Pose, windowW: int, windowH: int): Pose
    requires p.imageW >= 1.0 && p.imageH >= 1.0
  {
    if windowW < 1 || windowH < 1 || (windowW as real == p.windowW && windowH as real == p.windowH) then p else
      var t := p.(windowW := windowW as real, windowH := windowH as real);
      if !p.touched then t.Fitted() else t.(zoom := t.ZoomInRange(t.zoom)).Clamped()
  }

  lemma ResizeGood(p: Pose, windowW: int, windowH: int)
    requires p.Good()
    ensures Resized(p, windowW, windowH).Good()
  {
    hide Scaled, Ratio;
    if windowW >= 1 && windowH >= 1 {
      var t := p.(windowW := windowW as real, windowH := windowH as real);
      InRange(t, t.zoom);
      FittedGood(t);
      if p.touched {
        var ranged := t.(zoom := t.ZoomInRange(t.zoom));
        assert ranged.Fit() == t.Fit();
        ClampedGood(ranged);
      }
    }
  }

  /** A new window is taken as it is; a touched view keeps what is still in bounds, and an
      untouched one is fitted to it. */
  lemma ResizeKeeps(p: Pose, windowW: int, windowH: int)
    requires p.Good() && windowW >= 1 && windowH >= 1
    ensures var r, t := Resized(p, windowW, windowH), p.(windowW := windowW as real, windowH := windowH as real);
            && r == t.(zoom := r.zoom, centerX := r.centerX, centerY := r.centerY)
            && (!p.touched ==> r == t.Fitted())
            && (p.touched && t.MinZoom() <= p.zoom ==> r.zoom == p.zoom)
            && (p.touched && p.zoom < t.MinZoom() ==> r.zoom == t.MinZoom())
            && (p.touched && AxisGood(p.centerX, Scaled(t.Turned().0, r.zoom), t.windowW) ==> r.centerX == p.centerX)
            && (p.touched && AxisGood(p.centerY, Scaled(t.Turned().1, r.zoom), t.windowH) ==> r.centerY == p.centerY)
  {
    hide Scaled, Ratio;
    var t := p.(windowW := windowW as real, windowH := windowH as real);
    FitFacts(t);
  }

  /** Go's remainder takes the sign of the dividend. */
  function Remainder(n: int, d: int): int
    requires d > 0
  {
    if n >= 0 then n % d else -((-n) % d)
  }

  lemma SizedFacts(p: Pose)
    requires p.Good()
    ensures p.Sized()
  {
  }

  /** The quarter turns after one more turn, in Go's arithmetic. */
  function QuartersAfter(quarters: int, direction: int): (q: int)
    ensures q == (quarters + direction) % 4
  {
    Remainder(Remainder(quarters + direction, 4) + 4, 4)
  }

  class View {
    const imageW: real
    const imageH: real
    var windowW: real
    var windowH: real
    var zoom: real
    var centerX: real
    var centerY: real
    var quarters: int
    var touched: bool

    ghost function Now(): Pose
      reads this
    {
      Pose(imageW, imageH, windowW, windowH, zoom, centerX, centerY, quarters, touched)
    }

    ghost predicate Valid()
      reads this
    {
      Now().Good()
    }

    constructor (imageW: int, imageH: int, windowW: int, windowH: int)
      requires imageW >= 1 && imageH >= 1 && windowW >= 1 && windowH >= 1
      ensures Valid() && !touched && quarters == 0
      ensures this.imageW == imageW as real && this.imageH == imageH as real
      ensures this.windowW == windowW as real && this.windowH == windowH as real
    {
      this.imageW, this.imageH := imageW as real, imageH as real;
      this.windowW, this.windowH := windowW as real, windowH as real;
      this.quarters, this.touched := 0, false;
      new;
      Reset();
    }

    function Turned(): (real, real)
      reads this
    {
      if quarters % 2 == 1 then (imageH, imageW) else (imageW, imageH)
    }

    function Fit(): (fit: real)
      requires imageW >= 1.0 && imageH >= 1.0
      reads this
      ensures fit == Now().Fit()
    {
      var (w, h) := Turned();
      Least(1.0, Least(Ratio(windowW, w), Ratio(windowH, h)))
    }

    /** The view after a reset depends on the image and the window only. */
    method Reset()
      requires imageW >= 1.0 && imageH >= 1.0 && windowW >= 1.0 && windowH >= 1.0
      modifies this`zoom, this`centerX, this`centerY, this`quarters, this`touched
      ensures Valid() && !touched && quarters == 0
    {
      quarters := 0;
      zoom := Fit();
      centerX, centerY := windowW / 2.0, windowH / 2.0;
      touched := false;
      FittedGood(Now());
    }

    /** Scales around a window point. */
    method ZoomAt(factor: real, x: real, y: real)
      requires Valid()
      modifies this`zoom, this`centerX, this`centerY, this`touched
      ensures Valid() && old(zoom) != 0.0 && Now() == Zoomed(old(Now()), factor, x, y)
    {
      ZoomKeepsPoint(Now(), factor, x, y);
      SizedFacts(Now());
      hide Scaled, Ratio, Anchored, ClampAxis, AxisGood, ShownAt, Pose.Good, Pose.Fit, Pose.Turned;
      if factor <= 0.0 {
        return;
      }
      var next := Least(MAX_ZOOM, Greatest(Fit() * MIN_ZOOM_OF_FIT, Scaled(zoom, factor)));
      if next == zoom {
        return;
      }
      centerX := Anchored(centerX, x, zoom, next);
      centerY := Anchored(centerY, y, zoom, next);
      zoom := next;
      touched := true;
      Clamp();
    }

    method Pan(dx: real, dy: real)
      requires Valid()
      modifies this`centerX, this`centerY, this`touched
      ensures Valid() && Now() == Panned(old(Now()), dx, dy)
    {
      PanGood(Now(), dx, dy);
      hide Scaled, Ratio;
      centerX := centerX + dx;
      centerY := centerY + dy;
      touched := true;
      Clamp();
    }

    /** Turns by quarter turns, either way. */
    method Rotate(direction: int)
      requires Valid()
      modifies this`quarters, this`zoom, this`centerX, this`centerY
      ensures Valid() && Now() == Rotated(old(Now()), direction)
    {
      RotateGood(Now(), direction);
      SizedFacts(Now());
      hide Scaled, Ratio, ClampAxis, AxisGood, QuartersAfter, Pose.Good, Pose.Fit, Pose.Turned, Pose.Clamped;
      quarters := QuartersAfter(quarters, direction);
      ghost var turned := Now();
      if !touched {
        zoom := Fit();
      }
      assert Now() == turned.(zoom := if touched then turned.zoom else turned.Fit());
      zoom := Least(MAX_ZOOM, Greatest(Fit() * MIN_ZOOM_OF_FIT, zoom));
      assert Now() == turned.(zoom := turned.ZoomInRange(if touched then turned.zoom else turned.Fit()));
      Clamp();
    }

    /** Follows the window. */
    method Resize(newW: int, newH: int)
      requires Valid()
      modifies this`windowW, this`windowH, this`zoom, this`centerX, this`centerY
      ensures Valid() && Now() == Resized(old(Now()), newW, newH)
    {
      ResizeGood(Now(), newW, newH);
      hide Scaled, Ratio;
      if newW < 1 || newH < 1 || (newW as real == windowW && newH as real == windowH) {
        return;
      }
      windowW, windowH := newW as real, newH as real;
      if !touched {
        zoom := Fit();
        centerX, centerY := windowW / 2.0, windowH / 2.0;
        return;
      }
      zoom := Least(MAX_ZOOM, Greatest(Fit() * MIN_ZOOM_OF_FIT, zoom));
      Clamp();
    }

    method Clamp()
      modifies this`centerX, this`centerY
      ensures Now() == old(Now()).Clamped()
    {
      var (w, h) := Turned();
      centerX := ClampAxis(centerX, Scaled(w, zoom), windowW);
      centerY := ClampAxis(centerY, Scaled(h, zoom), windowH);
    }
  }
}
