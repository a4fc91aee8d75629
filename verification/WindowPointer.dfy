/** The pointer on content: scroll bars, rows, carets and the wheel. */
module WindowPointer {
  import opened Arithmetic
  import opened Layout
  import opened TextArea
  import opened Widgets
  import opened WindowClicks
  import opened WindowLayout
  import opened WindowState

  function ScrollTo(t: Widget, scrollY: int): Widget {
    Clamped(t.(scrollY := scrollY))
  }

  lemma ScrollToInside(t: Widget, scrollY: int)
    requires WidgetInside(t)
    ensures var r := ScrollTo(t, scrollY);
            && WidgetInside(r) && SameByUser(t, r) && SameNodeFields(t, r) && ReadingOf(r) == ReadingOf(t)
            && r.listScroll == t.listScroll && r == t.(scrollX := r.scrollX, scrollY := r.scrollY)
  {
  }

  /** Replacing one widget by the user's doing, without a new reading or place. */
  lemma OneScrolled(widgets: map<int, Widget>, id: int, t: Widget)
    requires id in widgets && SameByUser(widgets[id], t) && ReadingOf(t) == ReadingOf(widgets[id])
    requires RectNow(t) == RectNow(widgets[id])
    ensures SameStructure(widgets, widgets[id := t]) && SameReadings(widgets, widgets[id := t])
    ensures SamePlaces(widgets, widgets[id := t])
  {
    hide ReadingOf;
  }

  lemma ScrollKeepsWhole(s: Window, id: int, scrollY: int)
    requires Whole(s) && id in s.widgets
    ensures var widgets := s.widgets[id := ScrollTo(s.widgets[id], scrollY)];
            && Whole(s.(widgets := widgets))
            && SameStructure(s.widgets, widgets) && SameReadings(s.widgets, widgets) && SamePlaces(s.widgets, widgets)
  {
    WidgetFacts(s, id);
    var t := ScrollTo(s.widgets[id], scrollY);
    ScrollToInside(s.widgets[id], scrollY);
    SameNodeOf(s.widgets[id], t);
    OneScrolled(s.widgets, id, t);
    hide Whole, WidgetInside, ScrollTo, SameStructure, SameReadings, SamePlaces, SameNode, ReadingOf, ListScrollInside;
    UpdateKeepsWhole(s, id, t);
  }

  /** The row whose band holds y, counted from the scrolled top; -1 outside all of them. */
  function RowAt(t: Widget, y: int): (row: int)
    requires ScrollInside(t) && t.Scrolling()
    ensures -1 <= row < t.Count()
    ensures row >= 0 ==> row * ITEM_HEIGHT <= y - ViewportOf(t).y + t.scrollY < (row + 1) * ITEM_HEIGHT
    ensures var v := ViewportOf(t);
            row == -1 <==> y < v.y || y >= v.y + v.h || t.Count() * ITEM_HEIGHT <= y - v.y + t.scrollY
  {
    var v := ViewportOf(t);
    if y < v.y || y >= v.y + v.h then -1 else
      var row := Truncated(y - v.y + t.scrollY, ITEM_HEIGHT);
      if row >= t.Count() then -1 else row
  }

  /** The column of a click `want` pixels into a line: the gap between two
      runes that is nearer to the click. */
  ghost predicate ColumnAt(measure: Text -> nat, line: Text, want: int, column: int) {
    exists k :: 0 <= k <= |line| && Crossing(measure, line, want, k) && column == NearerEnd(measure, line, want, k)
  }

  lemma ColumnInLine(measure: Text -> nat, line: Text, want: int, column: int)
    requires ColumnAt(measure, line, want, column)
    ensures 0 <= column <= |line|
  {
  }

  function NearerEnd(measure: Text -> nat, line: Text, want: int, k: nat): (column: nat)
    requires k <= |line|
    ensures column <= |line|
  {
    if k < |line| && want - PrefixWidth(measure, line, k) > PrefixWidth(measure, line, k + 1) - want then k + 1 else k
  }

  function PrefixWidth(measure: Text -> nat, line: Text, k: nat): int
    requires k <= |line|
  {
    measure(line[..k])
  }

  /** k is the first rune that ends to the right of the click, or the line's end. */
  ghost predicate Crossing(measure: Text -> nat, line: Text, want: int, k: nat)
    requires k <= |line|
  {
    && (forall j :: 1 <= j <= k ==> PrefixWidth(measure, line, j) <= want)
    && (k < |line| ==> PrefixWidth(measure, line, k + 1) > want)
  }

  /** The gap a click is given is as near to it as any other. */
  lemma NearestGap(measure: Text -> nat, line: Text, want: int, k: nat, other: nat)
    requires k <= |line| && Crossing(measure, line, want, k) && other <= |line|
    requires forall i, j :: 0 <= i <= j <= |line| ==> PrefixWidth(measure, line, i) <= PrefixWidth(measure, line, j)
    ensures var column := NearerEnd(measure, line, want, k);
            Distance(want, PrefixWidth(measure, line, column)) <= Distance(want, PrefixWidth(measure, line, other))
  {
    hide PrefixWidth;
    if other > k {
      assert PrefixWidth(measure, line, k + 1) <= PrefixWidth(measure, line, other);
    } else {
      assert PrefixWidth(measure, line, other) <= PrefixWidth(measure, line, k);
    }
  }

  function Distance(a: int, b: int): int { if a < b then b - a else a - b }

  lemma CaretInside(t: Widget, caret: int)
    requires WidgetInside(t) && 0 <= caret <= |t.text|
    ensures var r := t.(caret := caret);
            WidgetInside(r) && SameNode(t, t) == SameNode(t, r) && (ListScrollInside(t) ==> ListScrollInside(r))
  {
    assert ViewportOf(t.(caret := caret)) == ViewportOf(t);
  }

  lemma CaretKeepsWhole(s: Window, id: int, caret: int)
    requires Whole(s) && id in s.widgets && 0 <= caret <= |s.widgets[id].text|
    ensures var widgets := s.widgets[id := s.widgets[id].(caret := caret)];
            && Whole(s.(widgets := widgets))
            && SameStructure(s.widgets, widgets) && SameReadings(s.widgets, widgets)
  {
    hide Whole, WidgetInside, ListScrollInside, SameNode;
    WidgetFacts(s, id);
    var t := s.widgets[id].(caret := caret);
    CaretInside(s.widgets[id], caret);
    UpdateKeepsWhole(s, id, t);
    UserUpdates(s.widgets, id, t, [], []);
  }

  /** A TextArea's horizontal scroll, kept in device pixels, in logical ones. */
  function DrawnScroll(scroll: int, scale: real): int {
    var logical := scroll as real / (if scale > 1.0 then scale else 1.0);
    if logical >= 0.0 then logical.Floor else -(-logical).Floor
  }

  /** Device pixels become logical ones, rounded down; without a larger scale they are the same. */
  lemma DrawnScrollIs(scroll: int, scale: real)
    requires scroll >= 0
    ensures scale <= 1.0 ==> DrawnScroll(scroll, scale) == scroll
    ensures scale > 1.0 ==>
              var d := DrawnScroll(scroll, scale);
              d >= 0 && d as real * scale <= scroll as real < (d + 1) as real * scale
    ensures DrawnScroll(-scroll, scale) == -DrawnScroll(scroll, scale)
  {
    var unit := if scale > 1.0 then scale else 1.0;
    QuotientFloor(scroll as real, unit);
    assert (-scroll) as real == -(scroll as real);
    NegatedQuotient(scroll as real, unit);
  }

  lemma QuotientFloor(n: real, unit: real)
    requires n >= 0.0 && unit >= 1.0
    ensures var q := n / unit; q >= 0.0 && q.Floor as real * unit <= n < (q.Floor + 1) as real * unit
  {
    var q := n / unit;
    assert q * unit == n;
    NotNegative(q, unit);
    FloorScaled(q, n, unit, q.Floor);
  }

  lemma FloorScaled(q: real, n: real, unit: real, d: int)
    requires q * unit == n && unit >= 1.0 && d as real <= q < (d + 1) as real
    ensures d as real * unit <= n < (d + 1) as real * unit
  {
    Spread(d as real, q, unit);
    Spread(q, (d + 1) as real, unit);
  }

  lemma NegatedQuotient(n: real, unit: real)
    requires unit >= 1.0
    ensures (-n) / unit == -(n / unit)
  {
  }

  lemma NotNegative(x: real, unit: real)
    requires unit > 0.0 && x * unit >= 0.0
    ensures x >= 0.0
  {
  }

  lemma Spread(x: real, y: real, unit: real)
    requires unit > 0.0 && x <= y
    ensures x * unit <= y * unit && (x < y ==> x * unit < y * unit)
  {
    var gap := y - x;
    PositiveGap(gap, unit);
    assert gap * unit == y * unit - x * unit;
  }

  lemma PositiveGap(gap: real, unit: real)
    requires unit > 0.0 && gap >= 0.0
    ensures gap * unit >= 0.0 && (gap > 0.0 ==> gap * unit > 0.0)
  {
  }

  /** The line and column under a click, for a position in a TextArea. */
  ghost predicate ClickedPosition(measure: Text -> nat, scale: real, t: Widget, x: int, y: int, p: Position) {
    var v, lines := ViewportOf(t), Lines(t.text);
    && 0 <= p.0 < |lines| && p.0 == Clamp(Truncated(y - v.y + t.scrollY, LINE_HEIGHT), 0, |lines| - 1)
    && ColumnAt(measure, lines[p.0], x - v.x + DrawnScroll(t.scroll, scale), p.1)
  }

  /** The line clicked is the one whose band holds the point, or the first or last one when
      the point is above or below all of them. */
  lemma ClickedLine(measure: Text -> nat, scale: real, t: Widget, x: int, y: int, p: Position)
    requires ClickedPosition(measure, scale, t, x, y, p)
    ensures var at, lines := y - ViewportOf(t).y + t.scrollY, Lines(t.text);
            && (p.0 > 0 ==> p.0 * LINE_HEIGHT <= at) && (p.0 < |lines| - 1 ==> at < (p.0 + 1) * LINE_HEIGHT)
  {
    hide ColumnAt, Lines, ViewportOf;
  }

  // ---- scroll bars --------------------------------------------------------------------------

  predicate OnScrollbar(t: Widget, x: int, y: int) {
    t.Scrolling() &&
    var v := ViewportOf(t); v.vertical && v.x + v.w <= x < v.x + v.w + SCROLLBAR && v.y <= y < v.y + v.h
  }

  /** The bar is at the right edge of its widget, as high as the view, and there exactly when
      the content is higher. */
  lemma ScrollbarPlace(t: Widget, x: int, y: int)
    requires t.Scrolling() && t.w >= 26 && t.h >= 30
    ensures var v, right := ViewportOf(t), t.x + t.w - (if t.kind == AreaInput then 8 else 1);
            OnScrollbar(t, x, y) <==> v.contentH > v.h && right - 10 <= x < right && v.y <= y < v.y + v.h
  {
    ViewFits(t);
    hide ViewportOf;
  }

  predicate OnThumb(t: Widget, y: int)
    requires ViewportOf(t).h >= 0
  {
    var (top, size) := Thumb(ViewportOf(t), t.scrollY);
    top <= y < top + size
  }

  /** After a press above or below the thumb: scrolled so that half the thumb lies above y, up to truncation and
      the ends of the content. */
  function Jumped(t: Widget, y: int): Widget
    requires ViewportOf(t).h >= 0
  {
    var v := ViewportOf(t);
    var size := Thumb(v, t.scrollY).1;
    ScrollTo(t, Truncated((y - v.y - Truncated(size, 2)) * (v.contentH - v.h), Max(v.h - size, 1)))
  }

  /** The thumb dragged with the pointer, which holds it grabY below its top. */
  function Dragged(t: Widget, grabY: int, y: int): Widget
    requires ViewportOf(t).h >= 0
  {
    var v := ViewportOf(t);
    ScrollTo(t, Truncated((y - grabY - v.y) * (v.contentH - v.h), Max(v.h - Thumb(v, t.scrollY).1, 1)))
  }

  lemma ViewportHigh(t: Widget)
    ensures ViewportOf(t).h >= 0
  {
  }

  /** A drag follows the pointer: a pointer further down scrolls no less, and past
      either end of the track the content's end shows. */
  lemma DragFollows(t: Widget, grabY: int, y: int, lower: int)
    requires t.Scrolling() && ViewportOf(t).contentH > ViewportOf(t).h >= 0 && y <= lower
    ensures ViewportOf(t).h >= 0 && Dragged(t, grabY, y).scrollY <= Dragged(t, grabY, lower).scrollY
    ensures y - grabY <= ViewportOf(t).y ==> Dragged(t, grabY, y).scrollY == 0
    ensures y - grabY >= ViewportOf(t).y + Max(ViewportOf(t).h - Thumb(ViewportOf(t), t.scrollY).1, 1) ==>
      Dragged(t, grabY, y).scrollY == ViewportOf(t).contentH - ViewportOf(t).h
  {
    var v := ViewportOf(t);
    var span, travel := v.contentH - v.h, Max(v.h - Thumb(v, t.scrollY).1, 1);
    hide Thumb, ViewportOf, Truncated, Dragged;
    PositionsFollow(y - grabY - v.y, lower - grabY - v.y, span, travel);
    DraggedTo(t, grabY, y);
    DraggedTo(t, grabY, lower);
  }

  lemma DraggedTo(t: Widget, grabY: int, y: int)
    requires t.Scrolling() && ViewportOf(t).contentH >= ViewportOf(t).h >= 0
    ensures var v := ViewportOf(t);
            Dragged(t, grabY, y).scrollY ==
            Clamp(Truncated((y - grabY - v.y) * (v.contentH - v.h), Max(v.h - Thumb(v, t.scrollY).1, 1)),
                  0, v.contentH - v.h)
  {
    var v := ViewportOf(t);
    hide Thumb, ViewportOf, Truncated, ScrollTo;
    ScrolledTo(t, Truncated((y - grabY - v.y) * (v.contentH - v.h), Max(v.h - Thumb(v, t.scrollY).1, 1)));
  }

  lemma PositionsFollow(a: int, b: int, span: nat, travel: nat)
    requires a <= b && span > 0 && travel > 0
    ensures Truncated(a * span, travel) <= Truncated(b * span, travel)
    ensures a <= 0 ==> Truncated(a * span, travel) <= 0
    ensures a >= travel ==> Truncated(a * span, travel) >= span
  {
    hide Truncated;
    MultiplyMonotone(a, b, span);
    TruncatedMonotone(a * span, b * span, travel);
    TruncatedMultiple(0, travel);
    TruncatedMultiple(span, travel);
    if a <= 0 {
      MultiplyMonotone(a, 0, span);
      TruncatedMonotone(a * span, 0, travel);
    }
    if a >= travel {
      MultiplyMonotone(travel, a, span);
      TruncatedMonotone(span * travel, a * span, travel);
    }
  }

  lemma TruncatedMultiple(q: nat, d: nat)
    requires d > 0
    ensures Truncated(q * d, d) == q
  {
    MultiplyMonotone(0, q, d);
    DivisionUnique(q * d, d, q);
  }

  lemma ScrolledTo(t: Widget, scrollY: int)
    requires t.Scrolling() && ViewportOf(t).contentH >= ViewportOf(t).h
    ensures ScrollTo(t, scrollY).scrollY == Clamp(scrollY, 0, ViewportOf(t).contentH - ViewportOf(t).h)
  {
    assert ViewportOf(t.(scrollY := scrollY)) == ViewportOf(t);
  }

  lemma TruncatedMonotone(a: int, b: int, d: int)
    requires a <= b && d > 0
    ensures Truncated(a, d) <= Truncated(b, d)
  {
    if a >= 0 {
      QuotientMonotone(a, b, d);
    } else if b < 0 {
      QuotientMonotone(-b, -a, d);
    } else {
      QuotientMonotone(0, -a, d);
      QuotientMonotone(0, b, d);
      NothingDivided(d);
    }
  }

  lemma NothingDivided(d: nat)
    requires d > 0
    ensures 0 / d == 0
  {
    DivisionUnique(0, d, 0);
  }

  lemma QuotientMonotone(a: nat, b: nat, d: nat)
    requires a <= b && d > 0
    ensures a / d <= b / d
  {
    DivisionBounds(a, d);
    DivisionBounds(b, d);
    var p, q := a / d, b / d;
    if p > q {
      MultiplyMonotone(q + 1, p, d);
    }
  }

  // ---- where a press on a scroll bar takes the thumb ----------------------------------------

  /** The thumb's way along the track is no longer than the content's way past the view. */
  lemma TravelShort(v: Viewport, scrollY: int)
    requires v.contentH > v.h > 0
    ensures var size := Thumb(v, scrollY).1;
            0 < size <= v.h && v.h - size <= v.contentH - v.h && (size < v.h ==> size >= 16)
  {
    hide Truncated;
    ShareFits(v.h, v.contentH);
  }

  lemma ShareFits(h: nat, content: nat)
    requires content > h
    ensures var q := h * h / content; 0 <= q && h - q <= content - h
  {
    MultiplyMonotone(0, h, h);
    DivisionBounds(h * h, content);
    Squares(h, content - h);
    NotBelow(h * h / content, h - (content - h), content, h * h);
  }

  lemma Squares(h: nat, span: nat)
    ensures (h - span) * (h + span) <= h * h
  {
    MultiplyMonotone(0, span, span);
    assert (h - span) * (h + span) == h * h - span * span;
  }

  lemma NotBelow(q: nat, a: int, content: nat, square: nat)
    requires a * content <= square < q * content + content
    ensures a <= q
  {
    if a > q {
      MultiplyMonotone(q + 1, a, content);
    }
  }

  /** The nearest multiples: b * span is no further below a * travel, and a * travel no
      further below d * span, than their units allow, so b falls short of d by one at most. */
  lemma NearMultiples(d: nat, travel: nat, span: nat, a: nat, b: nat)
    requires 0 < travel <= span
    requires a * travel <= d * span < a * travel + travel && b * span <= a * travel < b * span + span
    ensures d - 1 <= b <= d
  {
    if b > d {
      MultiplyMonotone(d + 1, b, span);
    } else if b < d - 1 {
      MultiplyMonotone(b + 2, d, span);
    }
  }

  lemma TruncatedBounds(x: nat, n: nat)
    requires n > 0
    ensures var q := Truncated(x, n); 0 <= q && q * n <= x < q * n + n
  {
    DivisionBounds(x, n);
    var q := x / n;
    assert Truncated(x, n) == q;
    hide Truncated;
  }

  /** Scrolling to a height of the track and drawing the thumb for that scroll comes back
      to the height, or to one pixel above it. */
  lemma TrackAndBack(d: nat, travel: nat, span: nat)
    requires 0 < travel <= span && d <= travel
    ensures var scroll := Truncated(d * span, travel);
            0 <= scroll <= span && d - 1 <= Truncated(travel * scroll, span) <= d
  {
    hide Truncated;
    MultiplyMonotone(0, d, span);
    PositionsFollow(d, travel, span, travel);
    TruncatedMultiple(span, travel);
    TruncatedBounds(d * span, travel);
    var scroll := Truncated(d * span, travel);
    assert scroll <= span;
    MultiplyMonotone(0, scroll, travel);
    TruncatedBounds(travel * scroll, span);
    var drawn := Truncated(travel * scroll, span);
    NearMultiples(d, travel, span, scroll, drawn);
  }

  /** Where a thumb is drawn that was sent to height d of its track. */
  lemma SentTo(d: int, travel: nat, span: nat)
    requires 0 < travel <= span
    ensures var jump := Clamp(Truncated(d * span, travel), 0, span);
            var drawn := Truncated(travel * jump, span);
            && 0 <= drawn <= travel && (d <= 0 ==> jump == drawn == 0)
            && (d >= travel ==> jump == span && drawn == travel)
            && (0 < d < travel ==> d - 1 <= drawn <= d)
  {
    if 0 < d < travel {
      TrackAndBack(d, travel, span);
    } else {
      PositionsFollow(d, d, span, travel);
      TruncatedMultiple(0, span);
      TruncatedMultiple(travel, span);
      hide Truncated;
    }
  }

  /** Where a press at y on the track scrolls to. */
  function JumpScroll(v: Viewport, size: int, y: int): int
    requires v.contentH > v.h
  {
    Clamp(Truncated((y - v.y - Truncated(size, 2)) * (v.contentH - v.h), Max(v.h - size, 1)), 0, v.contentH - v.h)
  }

  /** Wherever the track is pressed, the thumb ends up under the pointer; away from the ends
      of the content its middle is there, or one pixel above. */
  lemma JumpHolds(v: Viewport, scrollY: int, y: int)
    requires v.contentH > v.h && v.y <= y < v.y + v.h
    ensures v.h > 0
    ensures var size := Thumb(v, scrollY).1;
            var jump := JumpScroll(v, size, y);
            var grab := y - Thumb(v, jump).0;
            0 <= grab < size && (0 < jump < v.contentH - v.h ==> size / 2 <= grab <= size / 2 + 1)
  {
    hide Thumb, Truncated;
    TravelShort(v, scrollY);
    var size, span := Thumb(v, scrollY).1, v.contentH - v.h;
    var travel, d := v.h - size, y - v.y - Truncated(size, 2);
    var jump := JumpScroll(v, size, y);
    ThumbDrawn(v, scrollY, jump);
    HalfTruncated(size);
    if travel == 0 {
      TruncatedMultiple(0, span);
      assert travel * jump == 0 * span;
      PositionsFollow(d, d, span, 1);
    } else {
      SentTo(d, travel, span);
      assert jump == Clamp(Truncated(d * span, travel), 0, span);
    }
  }

  lemma ThumbDrawn(v: Viewport, before: int, scrollY: int)
    requires v.contentH > v.h >= 0
    ensures var size := Thumb(v, before).1;
            Thumb(v, scrollY) == (v.y + Truncated((v.h - size) * scrollY, v.contentH - v.h), size)
  {
    hide Truncated;
  }

  lemma HalfTruncated(size: nat)
    ensures Truncated(size, 2) == size / 2
  {
  }

  /** So does the press itself: the pointer is on the thumb at the new scroll. */
  lemma PressHoldsThumb(t: Widget, x: int, y: int)
    requires OnScrollbar(t, x, y)
    ensures ViewportOf(t).h >= 0
    ensures var held := if OnThumb(t, y) then t else Jumped(t, y);
            var (top, size) := Thumb(ViewportOf(t), held.scrollY);
            top <= y < top + size
  {
    var v := ViewportOf(t);
    var size := Thumb(v, t.scrollY).1;
    if !OnThumb(t, y) {
      ScrolledTo(t, Truncated((y - v.y - Truncated(size, 2)) * (v.contentH - v.h), Max(v.h - size, 1)));
      JumpHolds(v, t.scrollY, y);
      hide ScrollTo, Truncated, ViewportOf;
    }
  }

  // ---- a press ------------------------------------------------------------------------------

  /** The focus after a press: the focusable leaf under the point, or none. */
  ghost predicate FocusAt(widgets: map<int, Widget>, x: int, y: int, focus: int) {
    && (forall k :: k in widgets && LeafAt(widgets[k], x, y) ==> focus == if widgets[k].Focusable() then k else 0)
    && ((forall k :: k in widgets ==> !LeafAt(widgets[k], x, y)) ==> focus == 0)
  }

  lemma FocusAtKept(a: map<int, Widget>, b: map<int, Widget>, x: int, y: int, focus: int)
    requires FocusAt(a, x, y, focus) && SameStructure(a, b) && SamePlaces(a, b)
    ensures FocusAt(b, x, y, focus)
  {
    forall k | k in b
      ensures LeafAt(b[k], x, y) <==> LeafAt(a[k], x, y)
      ensures b[k].Focusable() <==> a[k].Focusable()
    {
      assert SameByUser(a[k], b[k]) && RectNow(a[k]) == RectNow(b[k]);
    }
  }

  lemma FocusFound(widgets: map<int, Widget>, x: int, y: int, id: int)
    requires UniqueLeafAt(widgets, x, y) && 0 !in widgets
    requires id != 0 ==> id in widgets && LeafAt(widgets[id], x, y)
    requires id == 0 ==> forall k :: k in widgets ==> !LeafAt(widgets[k], x, y)
    ensures FocusAt(widgets, x, y, if id == 0 || !widgets[id].Focusable() then 0 else id)
  {
  }

  ghost predicate RowPressed(a: Widget, b: Widget, y: int) {
    && ScrollInside(a) && a.Scrolling()
    && var row := RowAt(a, y); b == if row >= 0 then UserSelected(a, row) else a
  }

  /** What a press on a focusable leaf does to it: jump its scroll bar, select its
      row, or move its caret. */
  ghost predicate PressedOn(a: map<int, Widget>, b: map<int, Widget>, id: int, x: int, y: int, measure: Text -> nat,
                            scale: real) {
    && id in a && id in b && b == a[id := b[id]] && ViewportOf(a[id]).h >= 0
    && var t := a[id];
       if OnScrollbar(t, x, y) then b[id] == if OnThumb(t, y) then t else Jumped(t, y)
       else match t.kind
         case ListBox => RowPressed(t, b[id], y)
         case TableView => RowPressed(t, b[id], y)
         case AreaInput =>
           && 0 <= b[id].caret <= |t.text| && b[id] == t.(caret := b[id].caret)
           && ClickedPosition(measure, scale, t, x, y, PositionOf(t.text, b[id].caret))
         case _ => b[id] == t
  }

  /** What a press outside an open list makes of a laid-out window: the focusable leaf
      under the point, if any, is focused and pressed, and follows the press. */
  ghost predicate PressedOutside(a: Window, b: Window, x: int, y: int, measure: Text -> nat, scale: real) {
    && b.pressed == b.focus && FocusAt(b.widgets, x, y, b.focus)
    && b == a.(widgets := b.widgets, changes := b.changes, focus := b.focus, pressed := b.focus, dragging := b.dragging,
               grabY := b.grabY)
    && if b.focus == 0 then
         b.widgets == a.widgets && b.changes == a.changes && b.dragging == a.dragging && b.grabY == a.grabY
       else
         && PressedOn(a.widgets, b.widgets, b.focus, x, y, measure, scale)
         && var t := a.widgets[b.focus];
            if OnScrollbar(t, x, y) then
              b.dragging == b.focus && b.grabY == y - Thumb(ViewportOf(t), b.widgets[b.focus].scrollY).0
            else b.dragging == a.dragging && b.grabY == a.grabY
  }

  /** A press forgets an earlier press whatever it was. */
  lemma PressedBefore(a: Window, other: Window, b: Window, x: int, y: int, measure: Text -> nat, scale: real)
    requires PressedOutside(a, b, x, y, measure, scale) && a == other.(pressed := 0)
    ensures PressedOutside(other, b, x, y, measure, scale)
  {
    hide PressedOn, FocusAt, OnScrollbar, Thumb;
  }

  // ---- the wheel ----------------------------------------------------------------------------

  /** Changes to a widget's view of its content only. */
  predicate SameContent(a: Widget, b: Widget) {
    b == a.(highlight := b.highlight, listScroll := b.listScroll, scrollX := b.scrollX, scrollY := b.scrollY)
  }

  lemma ViewInside(a: Widget, b: Widget)
    requires WidgetInside(a) && SameContent(a, b) && SameNode(a, a)
    requires ScrollInside(b) && -1 <= b.highlight < b.Count()
    ensures WidgetInside(b) && SameNode(a, b) && SameByUser(a, b) && ReadingOf(a) == ReadingOf(b)
    ensures a.disabled == b.disabled
  {
  }

  lemma ViewKeepsWhole(s: Window, id: int, t: Widget)
    requires Whole(s) && id in s.widgets && SameContent(s.widgets[id], t)
    requires ScrollInside(t) && -1 <= t.highlight < t.Count() && (id == s.popup ==> ListScrollInside(t))
    ensures var widgets := s.widgets[id := t];
            && Whole(s.(widgets := widgets))
            && SameStructure(s.widgets, widgets) && SameReadings(s.widgets, widgets)
  {
    WidgetFacts(s, id);
    ViewInside(s.widgets[id], t);
    hide Whole, WidgetInside, ScrollInside, ListScrollInside;
    UpdateKeepsWhole(s, id, t);
    UserUpdates(s.widgets, id, t, [], []);
  }

  /** A real scroll distance, truncated toward zero. */
  function Toward(r: real): int {
    if r >= 0.0 then r.Floor else -((-r).Floor)
  }

  /** One notch of the wheel, in pixels. */
  const NOTCH := 72.0

  function ListWheeled(t: Widget, dy: real): Widget {
    ListClamped(t.(listScroll := t.listScroll - Toward(dy * NOTCH)))
  }

  function Wheeled(t: Widget, dx: real, dy: real): Widget {
    Clamped(t.(scrollY := t.scrollY - Toward(dy * NOTCH),
               scrollX := if t.kind == TableView then t.scrollX - Toward(dx * NOTCH) else t.scrollX))
  }

  /** Scrolling by a distance stops at the ends; between them it covers the distance but for
      a part of a pixel, downward for a negative one. */
  ghost predicate Moved(before: int, after: int, last: int, distance: real) {
    var way := (before - after) as real;
    && 0 <= after <= last
    && (after < last && distance < 0.0 ==> distance <= way <= 0.0 && way < distance + 1.0)
    && (after > 0 && distance >= 0.0 ==> distance - 1.0 < way <= distance && way >= 0.0)
    && (after == last && distance < 0.0 ==> before <= after)
    && (after == 0 && distance >= 0.0 ==> before >= after)
  }

  lemma TowardMoves(before: int, last: int, distance: real)
    requires 0 <= before <= last
    ensures Moved(before, Clamp(before - Toward(distance), 0, last), last, distance)
  {
  }

  /** One notch of the wheel is 72 pixels: up for a positive turn, down for a negative one. */
  lemma WheelMoves(t: Widget, dx: real, dy: real)
    requires t.Scrolling() && ScrollInside(t)
    ensures var v, r := ViewportOf(t), Wheeled(t, dx, dy);
            && Moved(t.scrollY, r.scrollY, Max(v.contentH - v.h, 0), dy * 72.0)
            && (t.kind == TableView ==> Moved(t.scrollX, r.scrollX, Max(v.contentW - v.w, 0), dx * 72.0))
            && r == t.(scrollX := if t.kind == TableView then r.scrollX else t.scrollX, scrollY := r.scrollY)
  {
    hide Moved, Toward, ViewportOf, ScrollInside;
    var v := ViewportOf(t);
    ScrollEnds(t);
    TowardMoves(t.scrollY, Max(v.contentH - v.h, 0), dy * 72.0);
    if t.kind == TableView {
      TowardMoves(t.scrollX, Max(v.contentW - v.w, 0), dx * 72.0);
    }
    SameView(t, if t.kind == TableView then t.scrollX - Toward(dx * NOTCH) else t.scrollX,
             t.scrollY - Toward(dy * NOTCH));
  }

  lemma ScrollEnds(t: Widget)
    requires t.Scrolling() && ScrollInside(t)
    ensures var v := ViewportOf(t);
            && 0 <= t.scrollY <= Max(v.contentH - v.h, 0)
            && (t.kind == TableView ==> 0 <= t.scrollX <= Max(v.contentW - v.w, 0))
  {
  }

  lemma SameView(t: Widget, scrollX: int, scrollY: int)
    ensures ViewportOf(t.(scrollX := scrollX, scrollY := scrollY)) == ViewportOf(t)
  {
  }

  lemma ListWheelMoves(t: Widget, dy: real)
    requires ListScrollInside(t)
    ensures var r := ListWheeled(t, dy);
            && Moved(t.listScroll, r.listScroll, Max(|t.items| - VisibleChoices(t), 0) * ITEM_HEIGHT, dy * 72.0)
            && r == t.(listScroll := r.listScroll)
  {
    TowardMoves(t.listScroll, Max(|t.items| - VisibleChoices(t), 0) * ITEM_HEIGHT, dy * 72.0);
    hide Moved, Toward;
  }

  lemma ListWheeledInside(t: Widget, dy: real)
    requires WidgetInside(t)
    ensures var r := ListWheeled(t, dy); SameContent(t, r) && ScrollInside(r) && r.highlight == t.highlight
                                          && ListScrollInside(r)
  {
    var r := ListWheeled(t, dy);
    assert ViewportOf(r) == ViewportOf(t);
  }

  lemma WheeledInside(t: Widget, dx: real, dy: real)
    requires WidgetInside(t) && t.Scrolling()
    ensures var r := Wheeled(t, dx, dy); SameContent(t, r) && ScrollInside(r) && r.highlight == t.highlight
                                          && r.listScroll == t.listScroll
  {
  }

  predicate ScrollableAt(widgets: map<int, Widget>, id: int, x: int, y: int) {
    id in widgets && LeafAt(widgets[id], x, y) && widgets[id].Scrolling() && !widgets[id].disabled
  }

  /** The wheel over an open list moves that list; elsewhere it scrolls the enabled
      scrolling leaf under the point, and whether there is one decides the answer. */
  ghost predicate WheelTurned(a: Window, b: Window, scrolled: bool, x: int, y: int, dx: real, dy: real) {
    if a.popup != 0 then
      && a.popup in a.widgets && scrolled == Contains(a.list, x, y)
      && b == if scrolled then a.(widgets := a.widgets[a.popup := ListWheeled(a.widgets[a.popup], dy)]) else a
    else if scrolled then
      exists id :: ScrollableAt(a.widgets, id, x, y)
        && b == a.(widgets := a.widgets[id := Wheeled(a.widgets[id], dx, dy)])
    else
      b == a && forall id :: id in a.widgets ==> !ScrollableAt(a.widgets, id, x, y)
  }

  /** Only the hit leaf can be scrollable under a point. */
  lemma OnlyScrollable(widgets: map<int, Widget>, id: int, x: int, y: int)
    requires UniqueLeafAt(widgets, x, y)
    requires id != 0 ==> id in widgets && LeafAt(widgets[id], x, y)
    requires id == 0 ==> forall k :: k in widgets ==> !LeafAt(widgets[k], x, y)
    ensures forall k :: k in widgets && ScrollableAt(widgets, k, x, y) ==> k == id && id != 0
  {
  }
}
