/** The widgets of a window: their fields, natural sizes and scrolling. */
module Widgets {
  import opened Arithmetic
  import opened TextArea

  datatype Kind =
    | Column | Row | Label | Button | TextInput | Checkbox | PasswordInput | AreaInput | ListBox | Select | TableView

  // Sizes, in pixels before display scaling.
  const ROW_HEIGHT := 32
  const BUTTON_PADDING := 14
  const MIN_BUTTON_WIDTH := 64
  const TEXT_INPUT_WIDTH := 260
  const TEXT_INPUT_INSET := 8
  const CHECKBOX_BOX := 18
  const CHECKBOX_GAP := 8
  const ITEM_HEIGHT := 24
  const HEADER_HEIGHT := 28
  const LINE_HEIGHT := 20
  const ITEM_INSET := 8
  const SCROLLBAR := 10
  const LIST_BOX_WIDTH := 260
  const LIST_BOX_ROWS := 6
  const TEXT_AREA_WIDTH := 360
  const TEXT_AREA_LINES := 6
  const TABLE_ROWS := 8
  const TABLE_MIN_WIDTH := 200
  const TABLE_MAX_WIDTH := 640
  const MIN_COLUMN_WIDTH := 48
  const MAX_COLUMN_WIDTH := 320
  const MEASURED_ROWS := 1000
  const SELECT_VISIBLE := 8
  const SELECT_MIN_WIDTH := 200
  const SELECT_MAX_WIDTH := 480
  const SELECT_ARROW := 28

  // Limits of the protocol.
  const MAX_DIMENSION := 4096
  const MAX_TEXT_RUNES := 4096
  const MAX_WIDGETS := 1024
  const MAX_SPACING := 1000
  const MAX_ITEMS := 20_000
  const MAX_ITEM_RUNES := 1024
  const MAX_COLUMNS := 64
  const MAX_ROWS := 20_000
  const MAX_CELLS := 200_000
  const MAX_CELL_RUNES := 1024

  datatype Widget = Widget(
    id: int, kind: Kind, parent: int, children: seq<int>,
    text: Text, placeholder: Text, checked: bool, spacing: int, padding: int,
    caret: int, scroll: int,
    items: seq<Text>, columns: seq<Text>, rows: seq<seq<Text>>, widths: seq<int>, selected: int,
    scrollX: int, scrollY: int, highlight: int, listScroll: int,
    disabled: bool,
    x: int, y: int, w: int, h: int, natW: int, natH: int, grows: bool)
  {
    predicate Container() { kind == Column || kind == Row }

    predicate TextField() { kind == TextInput || kind == PasswordInput }

    predicate Scrolling() { kind == ListBox || kind == TableView || kind == AreaInput }

    predicate Selecting() { kind == ListBox || kind == Select || kind == TableView }

    predicate Interactive() { !Container() && kind != Label }

    predicate Focusable() { Interactive() && !disabled }

    /** How many indices can be selected. */
    function Count(): nat { if kind == TableView then |rows| else |items| }

    function Limit(): nat { if kind == AreaInput then MAX_AREA_RUNES else MAX_TEXT_RUNES }
  }

  function Min(a: int, b: int): int { if a < b then a else b }

  function Max(a: int, b: int): int { if a > b then a else b }

  /** Go's integer division by a positive divisor truncates toward zero. */
  function Truncated(n: int, d: int): int
    requires d > 0
  {
    if n >= 0 then n / d else -((-n) / d)
  }

  function SumOf(widths: seq<int>): int {
    if widths == [] then 0 else SumOf(widths[..|widths| - 1]) + widths[|widths| - 1]
  }

  // ---- scrolling -------------------------------------------------------------

  /** Where content shows in the window, and how large that content is. */
  datatype Viewport = Viewport(x: int, y: int, w: int, h: int, contentW: int, contentH: int, vertical: bool)

  function ViewportOf(t: Widget): Viewport {
    match t.kind
    case ListBox =>
      Bounded(t.x + 1, t.y + 1, t.w - 2, t.h - 2, t.w - 2, |t.items| * ITEM_HEIGHT)
    case TableView =>
      Bounded(t.x + 1, t.y + 1 + HEADER_HEIGHT, t.w - 2, t.h - 2 - HEADER_HEIGHT,
              SumOf(t.widths), |t.rows| * ITEM_HEIGHT)
    case AreaInput =>
      Bounded(t.x + TEXT_INPUT_INSET, t.y + TEXT_INPUT_INSET, t.w - 2 * TEXT_INPUT_INSET, t.h - 2 * TEXT_INPUT_INSET,
              t.w - 2 * TEXT_INPUT_INSET, |Lines(t.text)| * LINE_HEIGHT)
    case _ => Viewport(0, 0, 0, 0, 0, 0, false)
  }

  /** The bar is there exactly when the content is higher than its view, and narrows it. */
  function Bounded(x: int, y: int, w: int, h: int, contentW: int, contentH: int): Viewport {
    var width, height := Max(w, 0), Max(h, 0);
    var vertical := contentH > height;
    Viewport(x, y, if vertical then Max(width - SCROLLBAR, 0) else width, height, contentW, contentH, vertical)
  }

  /** A widget with its scroll kept inside its content. */
  function Clamped(t: Widget): (r: Widget)
    ensures ScrollInside(r)
    ensures r == t.(scrollX := r.scrollX, scrollY := r.scrollY)
    ensures ScrollInside(t) ==> r == t
  {
    if !t.Scrolling() then t else
      var v := ViewportOf(t);
      t.(scrollY := Clamp(t.scrollY, 0, Max(v.contentH - v.h, 0)),
         scrollX := if t.kind == TableView then Clamp(t.scrollX, 0, Max(v.contentW - v.w, 0)) else t.scrollX)
  }

  predicate ScrollInside(t: Widget) {
    var v := ViewportOf(t);
    && (t.Scrolling() ==> 0 <= t.scrollY <= Max(v.contentH - v.h, 0))
    && (t.kind == TableView ==> 0 <= t.scrollX <= Max(v.contentW - v.w, 0))
  }

  /** Scrolls vertically by as little as possible to show [top, top + size). */
  function Shown(t: Widget, top: int, size: int): Widget {
    var v := ViewportOf(t);
    var down := if top < t.scrollY then top else t.scrollY;
    t.(scrollY := if top + size > down + v.h then top + size - v.h else down)
  }

  /** A ListBox or TableView scrolled to its selection. */
  function Revealed(t: Widget): (r: Widget)
    ensures r == t.(scrollX := r.scrollX, scrollY := r.scrollY)
    ensures ScrollInside(t) ==> ScrollInside(r)
  {
    if t.kind != ListBox && t.kind != TableView then t else
      Clamped(if t.selected >= 0 then Shown(t, t.selected * ITEM_HEIGHT, ITEM_HEIGHT) else t)
  }

  /** A TextArea scrolled to its caret's line. */
  function CaretRevealed(t: Widget): (r: Widget)
    requires 0 <= t.caret <= |t.text|
    ensures r == t.(scrollX := r.scrollX, scrollY := r.scrollY)
    ensures t.kind != AreaInput ==> r == t
    ensures ScrollInside(t) || t.kind == AreaInput ==> ScrollInside(r)
  {
    if t.kind != AreaInput then t else
      Clamped(Shown(t, PositionOf(t.text, t.caret).0 * LINE_HEIGHT, LINE_HEIGHT))
  }

  /** What a reveal promises: the shown rows are in view whenever the view is
      tall enough and the content holds them. */
  lemma RevealShows(t: Widget, top: int, size: int)
    requires t.Scrolling() && ScrollInside(t) && 0 <= top && 0 <= size
    requires size <= ViewportOf(t).h && top + size <= ViewportOf(t).contentH
    ensures var r := Clamped(Shown(t, top, size));
            && r.scrollY <= top && top + size <= r.scrollY + ViewportOf(t).h
            && (t.scrollY <= top && top + size <= t.scrollY + ViewportOf(t).h ==> r == t)
  {
    var r := Shown(t, top, size);
    assert ViewportOf(r) == ViewportOf(t);
  }

  /** Where the thumb begins and how high it is: the share of the content in view, never less than the least
      height. */
  function Thumb(v: Viewport, scrollY: int): (r: (int, int))
    requires v.h >= 0
  {
    var height := Min(Max(v.h * v.h / Max(v.contentH, 1), 16), v.h);
    var span := v.contentH - v.h;
    (v.y + (if span > 0 then Truncated((v.h - height) * scrollY, span) else 0), height)
  }

  /** The thumb stays inside its track. */
  lemma ThumbInTrack(v: Viewport, scrollY: int)
    requires v.h >= 0 && 0 <= scrollY <= Max(v.contentH - v.h, 0)
    ensures var (top, height) := Thumb(v, scrollY); v.y <= top && top + height <= v.y + v.h
  {
    var height := Min(Max(v.h * v.h / Max(v.contentH, 1), 16), v.h);
    if v.contentH > v.h {
      ThumbTravels(v.h - height, scrollY, v.contentH - v.h);
    }
  }

  lemma ThumbTravels(travel: nat, scroll: nat, span: nat)
    requires span > 0 && scroll <= span
    ensures 0 <= Truncated(travel * scroll, span) <= travel
  {
    MultiplyMonotone(0, scroll, travel);
    MultiplyMonotone(scroll, span, travel);
    QuotientAtMost(travel * scroll, span, travel);
  }

  /** The thumb is the share of the content in view, as long as that is at least 16 pixels. */
  lemma ThumbShare(v: Viewport, scrollY: int)
    requires v.h >= 0 && v.contentH >= 1
    ensures var size := Thumb(v, scrollY).1;
            && size <= v.h && (size < 16 ==> size == v.h)
            && (size > 16 ==> size * v.contentH <= v.h * v.h)
            && (size < v.h ==> v.h * v.h < (size + 1) * v.contentH)
  {
    hide Truncated;
    MultiplyMonotone(0, v.h, v.h);
    ShareInView(v.h * v.h, v.contentH, v.h);
  }

  lemma ShareInView(square: nat, content: nat, height: nat)
    requires content >= 1
    ensures var size := Min(Max(square / content, 16), height);
            && (size > 16 ==> size * content <= square)
            && (size < height ==> square < (size + 1) * content)
  {
    var q := square / content;
    var size := Min(Max(q, 16), height);
    DivisionBounds(square, content);
    if size > 16 {
      MultiplyMonotone(size, q, content);
    }
    if size < height {
      MultiplyMonotone(q + 1, size + 1, content);
    }
  }

  /** It goes from one end of the track to the other. */
  lemma ThumbEnds(v: Viewport)
    requires v.h >= 0
    ensures v.contentH <= v.h ==> Thumb(v, 0).0 == v.y
    ensures v.contentH > v.h ==>
              Thumb(v, 0).0 == v.y && Thumb(v, v.contentH - v.h).0 + Thumb(v, v.contentH - v.h).1 == v.y + v.h
  {
    hide Truncated;
    var size := Thumb(v, 0).1;
    if v.contentH > v.h {
      ThumbAtEnds(v.h - size, v.contentH - v.h);
    }
  }

  lemma ThumbAtEnds(travel: nat, span: nat)
    requires span > 0
    ensures Truncated(travel * 0, span) == 0 && Truncated(travel * span, span) == travel
  {
    DivisionUnique(travel * span, span, travel);
    MultiplyMonotone(0, travel, span);
  }

  // ---- what is in view --------------------------------------------------------

  /** A view lies inside its widget, with the bar beside it exactly when the content is
      higher than the view. */
  lemma ViewFits(t: Widget)
    requires t.Scrolling() && t.w >= 26 && t.h >= 30
    ensures var v, inset := ViewportOf(t), if t.kind == AreaInput then 8 else 1;
            && v.x == t.x + inset && v.y == t.y + inset + (if t.kind == TableView then 28 else 0)
            && v.x + v.w + (if v.vertical then 10 else 0) == t.x + t.w - inset && v.y + v.h == t.y + t.h - inset
            && (v.vertical <==> v.contentH > v.h)
            && v.contentH == (if t.kind == AreaInput then 20 * |Lines(t.text)| else 24 * t.Count())
            && (t.kind == TableView ==> v.contentW == SumOf(t.widths))
  {
    hide Lines, SumOf;
  }

  /** A selected entry is scrolled into view, and not at all if it is in view already. */
  lemma SelectionShown(t: Widget)
    requires t.kind == ListBox || t.kind == TableView
    requires ScrollInside(t) && 0 <= t.selected < t.Count() && ViewportOf(t).h >= ITEM_HEIGHT
    ensures var r, v, top := Revealed(t), ViewportOf(t), t.selected * ITEM_HEIGHT;
            && r.scrollY <= top && top + ITEM_HEIGHT <= r.scrollY + v.h
            && (t.scrollY <= top && top + ITEM_HEIGHT <= t.scrollY + v.h ==> r == t)
  {
    RevealShows(t, t.selected * ITEM_HEIGHT, ITEM_HEIGHT);
    hide Clamped, Shown, ScrollInside;
  }

  /** So is the line of a TextArea's caret. */
  lemma CaretShown(t: Widget)
    requires t.kind == AreaInput && ScrollInside(t) && 0 <= t.caret <= |t.text| && ViewportOf(t).h >= LINE_HEIGHT
    ensures var r, v, top := CaretRevealed(t), ViewportOf(t), PositionOf(t.text, t.caret).0 * LINE_HEIGHT;
            && r.scrollY <= top && top + LINE_HEIGHT <= r.scrollY + v.h
            && (t.scrollY <= top && top + LINE_HEIGHT <= t.scrollY + v.h ==> r == t)
  {
    PositionSplits(t.text, t.caret);
    hide Clamped, Shown, ScrollInside, PositionOf, Lines;
    RevealShows(t, PositionOf(t.text, t.caret).0 * LINE_HEIGHT, LINE_HEIGHT);
  }

  // ---- the choices of a Select ------------------------------------------------

  function VisibleChoices(t: Widget): int {
    Min(Max(|t.items|, 1), SELECT_VISIBLE)
  }

  predicate ListScrollInside(t: Widget) {
    0 <= t.listScroll <= Max(|t.items| - VisibleChoices(t), 0) * ITEM_HEIGHT
  }

  function ListClamped(t: Widget): (r: Widget)
    ensures r == t.(listScroll := r.listScroll) && ListScrollInside(r)
  {
    t.(listScroll := Clamp(t.listScroll, 0, Max(|t.items| - VisibleChoices(t), 0) * ITEM_HEIGHT))
  }

  function ListRevealed(t: Widget): (r: Widget)
    ensures r == t.(listScroll := r.listScroll)
    ensures ListScrollInside(t) ==> ListScrollInside(r)
  {
    if t.highlight < 0 then t else
      var top := t.highlight * ITEM_HEIGHT;
      var height := VisibleChoices(t) * ITEM_HEIGHT;
      var down := if top < t.listScroll then top else t.listScroll;
      ListClamped(t.(listScroll := if top + ITEM_HEIGHT > down + height then top + ITEM_HEIGHT - height else down))
  }

  /** The highlighted choice of an open list is scrolled into view. */
  lemma HighlightShown(t: Widget)
    requires ListScrollInside(t) && 0 <= t.highlight < |t.items|
    ensures var r, top := ListRevealed(t), t.highlight * ITEM_HEIGHT;
            && r.listScroll <= top && top + ITEM_HEIGHT <= r.listScroll + Min(|t.items|, 8) * ITEM_HEIGHT
            && (t.listScroll <= top && top + ITEM_HEIGHT <= t.listScroll + Min(|t.items|, 8) * ITEM_HEIGHT ==> r == t)
  {
  }
}
