/** The two passes that lay a window out, as functions of the widget tree, and
    what they guarantee: nothing shrinks, everything nests, growing children
    fill their Container exactly, and no two leaves overlap. */
module Layout {
  import opened TextArea
  import opened Widgets

  datatype Size = Size(w: int, h: int, grows: bool)

  datatype Rect = Rect(x: int, y: int, w: int, h: int)

  /** What the layout depends on. Widget ids count from 1 in creation order. */
  datatype Scene = Scene(widgets: map<int, Widget>, measure: Text -> nat, width: int, height: int)

  // ---- the widget tree -------------------------------------------------------

  ghost predicate Ascending(children: seq<int>) {
    forall i, j :: 0 <= i < j < |children| ==> children[i] < children[j]
  }

  /** The ids 1, 2, ... form one tree: 1 is its root, every other widget is a
      child of an older Container, and children are in creation order. */
  ghost predicate Tree(widgets: map<int, Widget>) {
    && (forall id :: id in widgets <==> 1 <= id <= |widgets|)
    && (forall id :: id in widgets ==> Node(widgets, id))
  }

  ghost predicate Node(widgets: map<int, Widget>, id: int)
    requires id in widgets
  {
    var t := widgets[id];
    && t.id == id && 0 <= t.spacing && 0 <= t.padding
    && (forall i :: 0 <= i < |t.widths| ==> 0 <= t.widths[i])
    && (t.children != [] || id == 1 ==> t.Container())
    && Ascending(t.children)
    && (forall i :: 0 <= i < |t.children| ==>
          id < t.children[i] && t.children[i] in widgets && widgets[t.children[i]].parent == id)
    && (if id == 1 then t.parent == 0
        else 1 <= t.parent < id && t.parent in widgets && id in widgets[t.parent].children)
  }

  /** id is k or one of its ancestors. */
  ghost predicate Above(widgets: map<int, Widget>, id: int, k: int)
    requires Tree(widgets) && k in widgets
    decreases k
  {
    id == k || (k > 1 && Above(widgets, id, widgets[k].parent))
  }

  // ---- natural sizes ---------------------------------------------------------

  function MainOf(kind: Kind, s: Size): int { if kind == Column then s.h else s.w }

  function CrossOf(kind: Kind, s: Size): int { if kind == Column then s.w else s.h }

  /** The main-axis extent of children one after the other. */
  function Extent(kind: Kind, sizes: seq<Size>, spacing: int): int {
    if sizes == [] then 0 else
      var n := |sizes| - 1;
      Extent(kind, sizes[..n], spacing) + (if n > 0 then spacing else 0) + MainOf(kind, sizes[n])
  }

  function Widest(kind: Kind, sizes: seq<Size>): int {
    if sizes == [] then 0 else
      var n := |sizes| - 1;
      Max(Widest(kind, sizes[..n]), CrossOf(kind, sizes[n]))
  }

  function AnyGrows(sizes: seq<Size>): bool {
    exists i :: 0 <= i < |sizes| && sizes[i].grows
  }

  function WidestText(measure: Text -> nat, placeholder: Text, items: seq<Text>): int {
    if items == [] then measure(placeholder) else
      Max(WidestText(measure, placeholder, items[..|items| - 1]), measure(items[|items| - 1]))
  }

  /** A widget's natural size, given its children's. */
  function Natural(t: Widget, measure: Text -> nat, sizes: seq<Size>): Size {
    match t.kind
    case Label => Size(measure(t.text), ROW_HEIGHT, false)
    case Button => Size(Max(measure(t.text) + 2 * BUTTON_PADDING, MIN_BUTTON_WIDTH), ROW_HEIGHT, false)
    case TextInput => Size(TEXT_INPUT_WIDTH, ROW_HEIGHT, false)
    case PasswordInput => Size(TEXT_INPUT_WIDTH, ROW_HEIGHT, false)
    case Checkbox => Size(CHECKBOX_BOX + CHECKBOX_GAP + measure(t.text), ROW_HEIGHT, false)
    case AreaInput => Size(TEXT_AREA_WIDTH, TEXT_AREA_LINES * LINE_HEIGHT + 2 * TEXT_INPUT_INSET, true)
    case ListBox => Size(LIST_BOX_WIDTH, LIST_BOX_ROWS * ITEM_HEIGHT + 2, true)
    case Select =>
      var widest := WidestText(measure, t.placeholder, t.items[..Min(|t.items|, MEASURED_ROWS)]);
      Size(Min(Max(widest + 2 * ITEM_INSET + SELECT_ARROW, SELECT_MIN_WIDTH), SELECT_MAX_WIDTH), ROW_HEIGHT, false)
    case TableView =>
      Size(Min(Max(SumOf(t.widths) + 2 + SCROLLBAR, TABLE_MIN_WIDTH), TABLE_MAX_WIDTH),
           HEADER_HEIGHT + TABLE_ROWS * ITEM_HEIGHT + 2, true)
    case Column =>
      Size(Widest(Column, sizes) + 2 * t.padding, Extent(Column, sizes, t.spacing) + 2 * t.padding, AnyGrows(sizes))
    case Row =>
      Size(Extent(Row, sizes, t.spacing) + 2 * t.padding, Widest(Row, sizes) + 2 * t.padding, AnyGrows(sizes))
  }

  ghost function NatSize(s: Scene, id: int): Size
    requires Tree(s.widgets) && id in s.widgets
    decreases |s.widgets| - id, 1
  {
    Natural(s.widgets[id], s.measure, ChildSizes(s, id))
  }

  ghost function ChildSizes(s: Scene, id: int): (sizes: seq<Size>)
    requires Tree(s.widgets) && id in s.widgets
    ensures |sizes| == |s.widgets[id].children|
    ensures forall i :: 0 <= i < |sizes| ==> sizes[i] == NatSize(s, s.widgets[id].children[i])
    decreases |s.widgets| - id, 0
  {
    var children := s.widgets[id].children;
    seq(|children|, i requires 0 <= i < |children| => NatSize(s, children[i]))
  }

  // ---- placement -------------------------------------------------------------

  function GrowingBefore(sizes: seq<Size>, i: nat): nat
    requires i <= |sizes|
  {
    if i == 0 then 0 else GrowingBefore(sizes, i - 1) + (if sizes[i - 1].grows then 1 else 0)
  }

  function InnerMain(t: Widget, r: Rect): int {
    (if t.kind == Column then r.h else r.w) - 2 * t.padding
  }

  function InnerCross(t: Widget, r: Rect): int {
    (if t.kind == Column then r.w else r.h) - 2 * t.padding
  }

  /** The extra main-axis space a Container hands to its growing children. */
  function Extra(t: Widget, r: Rect, sizes: seq<Size>): nat {
    Max(InnerMain(t, r) - Extent(t.kind, sizes, t.spacing), 0)
  }

  /** An equal part of `extra` for each of `growing` children; the first ones
      take the remainder. */
  function Share(extra: nat, growing: nat, index: nat): nat {
    if growing == 0 then 0 else extra / growing + (if index < extra % growing then 1 else 0)
  }

  function MainSize(t: Widget, r: Rect, sizes: seq<Size>, i: nat): int
    requires i < |sizes|
  {
    MainOf(t.kind, sizes[i])
    + (if sizes[i].grows then Share(Extra(t, r, sizes), GrowingBefore(sizes, |sizes|), GrowingBefore(sizes, i)) else 0)
  }

  function CrossSize(t: Widget, r: Rect, sizes: seq<Size>, i: nat): int
    requires i < |sizes|
  {
    var cross := CrossOf(t.kind, sizes[i]);
    if sizes[i].grows then Max(cross, InnerCross(t, r)) else cross
  }

  /** How far child i starts from the Container's inner start. */
  function MainStart(t: Widget, r: Rect, sizes: seq<Size>, i: nat): int
    requires i <= |sizes|
  {
    if i == 0 then 0 else MainStart(t, r, sizes, i - 1) + MainSize(t, r, sizes, i - 1) + t.spacing
  }

  /** Where a Container puts child i: a Column aligns left, a Row centers. */
  function Slot(t: Widget, r: Rect, sizes: seq<Size>, i: nat): Rect
    requires i < |sizes|
  {
    var start, main, cross := MainStart(t, r, sizes, i), MainSize(t, r, sizes, i), CrossSize(t, r, sizes, i);
    if t.kind == Column then
      Rect(r.x + t.padding, r.y + t.padding + start, cross, main)
    else
      Rect(r.x + t.padding + start, r.y + t.padding + Truncated(InnerCross(t, r) - cross, 2), main, cross)
  }

  function IndexIn(children: seq<int>, id: int): (i: nat)
    requires id in children
    ensures i < |children| && children[i] == id
  {
    if children[0] == id then 0 else 1 + IndexIn(children[1..], id)
  }

  /** Where the layout puts a widget. */
  ghost function RectOf(s: Scene, id: int): Rect
    requires Tree(s.widgets) && id in s.widgets
    decreases id
  {
    if id == 1 then
      var size := NatSize(s, 1);
      if size.grows then Rect(0, 0, Max(size.w, s.width), Max(size.h, s.height)) else Rect(0, 0, size.w, size.h)
    else
      var p := s.widgets[id].parent;
      Slot(s.widgets[p], RectOf(s, p), ChildSizes(s, p), IndexIn(s.widgets[p].children, id))
  }

  // ---- what a leaf needs -----------------------------------------------------

  /** A leaf is as large as its text needs, within its bounds. */
  lemma LeafNeeds(t: Widget, measure: Text -> nat)
    requires !t.Container()
    ensures var size, text := Natural(t, measure, []), measure(t.text);
            && (t.kind == Label ==> size == Size(text, 32, false))
            && (t.kind == Button ==> size.h == 32 && size.w >= 64 && size.w >= text + 28
                                     && (size.w == 64 || size.w == text + 28))
            && (t.kind == Checkbox ==> size == Size(18 + 8 + text, 32, false))
            && (t.TextField() ==> size == Size(260, 32, false))
            && (t.kind == AreaInput ==> size == Size(360, 6 * 20 + 16, true))
            && (t.kind == ListBox ==> size == Size(260, 6 * 24 + 2, true))
            && (t.kind == Select ==> size.h == 32 && 200 <= size.w <= 480)
            && (t.kind == TableView ==> size.h == 28 + 8 * 24 + 2 && 200 <= size.w <= 640)
            && size.grows == t.Scrolling()
  {
    hide WidestText, SumOf;
  }

  /** A Select shows its placeholder and each measured choice beside its arrow, and no
      narrower width above the least one would. */
  lemma SelectNeeds(t: Widget, measure: Text -> nat, k: nat)
    requires t.kind == Select && k < Min(|t.items|, 1000)
    ensures var w := Natural(t, measure, []).w;
            && (w < 480 ==> w >= measure(t.placeholder) + 44 && w >= measure(t.items[k]) + 44)
            && (w > 200 ==> SomeChoice(t, measure, w - 44))
  {
    var items := t.items[..Min(|t.items|, MEASURED_ROWS)];
    WidestTextBounds(measure, t.placeholder, items);
    assert items[k] == t.items[k];
    assert forall i :: 0 <= i < |items| ==> items[i] == t.items[i];
    hide WidestText;
  }

  /** The placeholder or a choice is at least this wide. */
  ghost predicate SomeChoice(t: Widget, measure: Text -> nat, width: int) {
    measure(t.placeholder) >= width || exists i :: 0 <= i < |t.items| && measure(t.items[i]) >= width
  }

  lemma {:induction false} WidestTextBounds(measure: Text -> nat, placeholder: Text, items: seq<Text>)
    ensures var widest := WidestText(measure, placeholder, items);
            && measure(placeholder) <= widest
            && (forall i :: 0 <= i < |items| ==> measure(items[i]) <= widest)
            && (widest == measure(placeholder) || exists i :: 0 <= i < |items| && measure(items[i]) == widest)
  {
    if items != [] {
      var rest, last := items[..|items| - 1], items[|items| - 1];
      WidestTextBounds(measure, placeholder, rest);
      assert forall i :: 0 <= i < |rest| ==> rest[i] == items[i];
      var widest := WidestText(measure, placeholder, rest);
      if widest != measure(placeholder) {
        var i :| 0 <= i < |rest| && measure(rest[i]) == widest;
        assert measure(items[i]) == widest;
      }
      assert items[|items| - 1] == last;
    }
  }

  /** A table shows all its columns and the scroll bar, if they fit the greatest width. */
  lemma TableNeeds(t: Widget, measure: Text -> nat)
    requires t.kind == TableView
    ensures var w := Natural(t, measure, []).w;
            && (w < 640 ==> w >= SumOf(t.widths) + 12) && (w > 200 ==> SumOf(t.widths) + 12 >= w)
  {
    hide SumOf;
  }

  /** Anything that scrolls is somewhere below a widget. */
  ghost predicate ScrollsBelow(widgets: map<int, Widget>, id: int)
    requires Tree(widgets)
  {
    exists k :: k in widgets && Above(widgets, id, k) && widgets[k].Scrolling()
  }

  /** A widget grows exactly if something below it scrolls. */
  lemma {:induction false} GrowsExactly(s: Scene, id: int)
    requires Tree(s.widgets) && id in s.widgets
    ensures NatSize(s, id).grows <==> ScrollsBelow(s.widgets, id)
    decreases |s.widgets| - id
  {
    var children := s.widgets[id].children;
    assert Node(s.widgets, id);
    forall i | 0 <= i < |children|
      ensures ChildSizes(s, id)[i].grows <==> ScrollsBelow(s.widgets, children[i])
    {
      GrowsExactly(s, children[i]);
    }
    GrowsByChildren(s, id);
    ScrollsByChildren(s.widgets, id);
    hide Tree, Node, NatSize, ScrollsBelow, ChildSizes;
  }

  lemma GrowsByChildren(s: Scene, id: int)
    requires Tree(s.widgets) && id in s.widgets
    ensures NatSize(s, id).grows <==>
              s.widgets[id].Scrolling() || AnyGrows(ChildSizes(s, id))
  {
    var t, sizes := s.widgets[id], ChildSizes(s, id);
    assert Node(s.widgets, id) && NatSize(s, id) == Natural(t, s.measure, sizes);
    hide Tree, ChildSizes, NatSize, Natural;
    if t.Container() {
      NaturalOfContainer(t, s.measure, sizes);
    } else {
      assert sizes == [];
      LeafNeeds(t, s.measure);
    }
  }

  lemma ScrollsByChildren(widgets: map<int, Widget>, id: int)
    requires Tree(widgets) && id in widgets
    ensures ScrollsBelow(widgets, id) <==>
              || widgets[id].Scrolling()
              || exists i :: 0 <= i < |widgets[id].children| && ScrollsBelow(widgets, widgets[id].children[i])
  {
    hide Tree, Above;
    var children := widgets[id].children;
    forall k | k in widgets
      ensures Above(widgets, id, k) <==> k == id || AboveAny(widgets, id, |children|, k)
    {
      BelowThroughChildren(widgets, id, k);
    }
  }

  // ---- sums of sizes ---------------------------------------------------------

  ghost predicate Sizes(sizes: seq<Size>) {
    forall i :: 0 <= i < |sizes| ==> sizes[i].w >= 0 && sizes[i].h >= 0
  }

  lemma {:induction false} WidestBounds(kind: Kind, sizes: seq<Size>)
    ensures Widest(kind, sizes) >= 0
    ensures forall i :: 0 <= i < |sizes| ==> CrossOf(kind, sizes[i]) <= Widest(kind, sizes)
  {
    if sizes != [] {
      WidestBounds(kind, sizes[..|sizes| - 1]);
    }
  }

  lemma {:induction false} ExtentNonNegative(kind: Kind, sizes: seq<Size>, spacing: int)
    requires Sizes(sizes) && spacing >= 0
    ensures Extent(kind, sizes, spacing) >= 0
  {
    if sizes != [] {
      ExtentNonNegative(kind, sizes[..|sizes| - 1], spacing);
    }
  }

  lemma NaturalNonNegative(t: Widget, measure: Text -> nat, sizes: seq<Size>)
    requires Sizes(sizes) && t.spacing >= 0 && t.padding >= 0
    ensures Natural(t, measure, sizes).w >= 0 && Natural(t, measure, sizes).h >= 0
  {
    WidestBounds(t.kind, sizes);
    ExtentNonNegative(t.kind, sizes, t.spacing);
    hide Widest, Extent, WidestText, SumOf, Sizes;
  }

  /** A Container's natural size is its padding around what its children need. */
  lemma NaturalOfContainer(t: Widget, measure: Text -> nat, sizes: seq<Size>)
    requires t.Container()
    ensures var main, cross := Extent(t.kind, sizes, t.spacing) + 2 * t.padding, Widest(t.kind, sizes) + 2 * t.padding;
            Natural(t, measure, sizes) ==
            if t.kind == Column then Size(cross, main, AnyGrows(sizes)) else Size(main, cross, AnyGrows(sizes))
  {
    hide Widest, Extent;
  }

  lemma {:induction false} NatSizeNonNegative(s: Scene, id: int)
    requires Tree(s.widgets) && id in s.widgets
    ensures NatSize(s, id).w >= 0 && NatSize(s, id).h >= 0
    decreases |s.widgets| - id, 1
  {
    ChildSizesNonNegative(s, id);
    assert Node(s.widgets, id);
    hide Tree, Natural;
    NaturalNonNegative(s.widgets[id], s.measure, ChildSizes(s, id));
  }

  lemma {:induction false} ChildSizesNonNegative(s: Scene, id: int)
    requires Tree(s.widgets) && id in s.widgets
    ensures Sizes(ChildSizes(s, id))
    decreases |s.widgets| - id, 0
  {
    forall i | 0 <= i < |s.widgets[id].children| {
      NatSizeNonNegative(s, s.widgets[id].children[i]);
    }
  }

  // ---- one Container ---------------------------------------------------------

  /** A Container at least as large as its natural size. */
  ghost predicate Roomy(t: Widget, r: Rect, sizes: seq<Size>) {
    && t.Container() && t.spacing >= 0 && t.padding >= 0 && Sizes(sizes)
    && Extent(t.kind, sizes, t.spacing) <= InnerMain(t, r)
    && Widest(t.kind, sizes) <= InnerCross(t, r)
  }

  lemma ShareBounds(extra: nat, growing: nat, index: nat, other: nat)
    ensures 0 <= Share(extra, growing, index)
    ensures -1 <= Share(extra, growing, index) - Share(extra, growing, other) <= 1
    ensures index <= other ==> Share(extra, growing, other) <= Share(extra, growing, index)
  {
  }

  /** What the first n growing children get altogether. */
  function SharesBefore(extra: nat, growing: nat, n: nat): nat {
    if n == 0 then 0 else SharesBefore(extra, growing, n - 1) + Share(extra, growing, n - 1)
  }

  lemma {:induction false} SharesSum(extra: nat, growing: nat, n: nat)
    requires growing > 0 && n <= growing
    ensures SharesBefore(extra, growing, n) == n * (extra / growing) + Min(n, extra % growing)
  {
    if n > 0 {
      SharesSum(extra, growing, n - 1);
      assert n * (extra / growing) == (n - 1) * (extra / growing) + extra / growing;
    }
  }

  /** The shares give the extra space away exactly. */
  lemma SharesExact(extra: nat, growing: nat)
    requires growing > 0
    ensures SharesBefore(extra, growing, growing) == extra
  {
    SharesSum(extra, growing, growing);
    assert extra == (extra / growing) * growing + extra % growing;
  }

  /** The children's positions: natural extents, spacing and shares add up. */
  lemma {:induction false} MainStartSum(t: Widget, r: Rect, sizes: seq<Size>, i: nat)
    requires i <= |sizes|
    ensures MainStart(t, r, sizes, i)
         == Extent(t.kind, sizes[..i], t.spacing) + (if i > 0 then t.spacing else 0)
            + SharesBefore(Extra(t, r, sizes), GrowingBefore(sizes, |sizes|), GrowingBefore(sizes, i))
  {
    if i > 0 {
      MainStartSum(t, r, sizes, i - 1);
      assert sizes[..i][..i - 1] == sizes[..i - 1];
    }
  }

  lemma {:induction false} GrowingMonotone(sizes: seq<Size>, i: nat, j: nat)
    requires i <= j <= |sizes|
    ensures GrowingBefore(sizes, i) <= GrowingBefore(sizes, j)
    ensures (exists k :: i <= k < j && sizes[k].grows) ==> GrowingBefore(sizes, i) < GrowingBefore(sizes, j)
    decreases j
  {
    if i < j {
      GrowingMonotone(sizes, i, j - 1);
    }
  }

  lemma {:induction false} SharesMonotone(extra: nat, growing: nat, m: nat, n: nat)
    requires m <= n
    ensures SharesBefore(extra, growing, m) <= SharesBefore(extra, growing, n)
    decreases n
  {
    if m < n {
      SharesMonotone(extra, growing, m, n - 1);
    }
  }

  lemma {:induction false} ExtentMonotone(kind: Kind, sizes: seq<Size>, spacing: int, i: nat)
    requires Sizes(sizes) && spacing >= 0 && i <= |sizes|
    ensures Extent(kind, sizes[..i], spacing) <= Extent(kind, sizes, spacing)
    decreases |sizes| - i
  {
    if i == |sizes| {
      assert sizes[..i] == sizes;
    } else {
      ExtentMonotone(kind, sizes, spacing, i + 1);
      assert sizes[..i + 1][..i] == sizes[..i];
    }
  }

  /** The end of child i along the main axis, from the inner start. */
  function MainEnd(t: Widget, r: Rect, sizes: seq<Size>, i: nat): int
    requires i < |sizes|
  {
    MainStart(t, r, sizes, i) + MainSize(t, r, sizes, i)
  }

  lemma EndsInside(t: Widget, r: Rect, sizes: seq<Size>, i: nat)
    requires i < |sizes| && Roomy(t, r, sizes)
    ensures 0 <= MainStart(t, r, sizes, i) && MainEnd(t, r, sizes, i) <= InnerMain(t, r)
  {
    var extra, growing := Extra(t, r, sizes), GrowingBefore(sizes, |sizes|);
    MainStartSum(t, r, sizes, i);
    MainStartSum(t, r, sizes, i + 1);
    assert forall k :: 0 <= k < |sizes[..i]| ==> sizes[..i][k] == sizes[k];
    ExtentNonNegative(t.kind, sizes[..i], t.spacing);
    ExtentMonotone(t.kind, sizes, t.spacing, i + 1);
    GrowingMonotone(sizes, i + 1, |sizes|);
    SharesMonotone(extra, growing, GrowingBefore(sizes, i + 1), growing);
    if growing > 0 {
      SharesExact(extra, growing);
    }
  }

  /** A Container with a growing child fills its main axis exactly. */
  lemma FillsExactly(t: Widget, r: Rect, sizes: seq<Size>)
    requires Roomy(t, r, sizes) && AnyGrows(sizes)
    ensures sizes != [] && MainEnd(t, r, sizes, |sizes| - 1) == InnerMain(t, r)
  {
    MainStartSum(t, r, sizes, |sizes|);
    assert sizes[..|sizes|] == sizes;
    GrowingMonotone(sizes, 0, |sizes|);
    SharesExact(Extra(t, r, sizes), GrowingBefore(sizes, |sizes|));
  }

  lemma {:induction false} StartsInOrder(t: Widget, r: Rect, sizes: seq<Size>, i: nat, j: nat)
    requires i < j < |sizes| && Roomy(t, r, sizes)
    ensures MainEnd(t, r, sizes, i) + t.spacing <= MainStart(t, r, sizes, j)
    ensures j == i + 1 ==> MainEnd(t, r, sizes, i) + t.spacing == MainStart(t, r, sizes, j)
    decreases j
  {
    if i + 1 < j {
      StartsInOrder(t, r, sizes, i, j - 1);
    }
  }

  // ---- the whole window ------------------------------------------------------

  /** inner lies within outer kept `padding` away from its edges. */
  predicate Inside(inner: Rect, outer: Rect, padding: int) {
    && outer.x + padding <= inner.x && inner.x + inner.w <= outer.x + outer.w - padding
    && outer.y + padding <= inner.y && inner.y + inner.h <= outer.y + outer.h - padding
  }

  predicate Disjoint(a: Rect, b: Rect) {
    a.x + a.w <= b.x || b.x + b.w <= a.x || a.y + a.h <= b.y || b.y + b.h <= a.y
  }

  predicate Contains(r: Rect, x: int, y: int) {
    r.x <= x < r.x + r.w && r.y <= y < r.y + r.h
  }

  /** A rectangle holds w times h points: a single one holds its corner, and two that touch
      hold together what they make up. */
  lemma ContainsTiles(r: Rect, cut: int, x: int, y: int)
    requires 0 <= cut <= r.w || 0 <= cut <= r.h
    ensures Contains(Rect(r.x, r.y, 1, 1), x, y) <==> x == r.x && y == r.y
    ensures 0 <= cut <= r.w ==>
              (Contains(r, x, y) <==>
               Contains(r.(w := cut), x, y) || Contains(r.(x := r.x + cut, w := r.w - cut), x, y))
    ensures 0 <= cut <= r.h ==>
              (Contains(r, x, y) <==>
               Contains(r.(h := cut), x, y) || Contains(r.(y := r.y + cut, h := r.h - cut), x, y))
  {
  }

  lemma SlotInside(t: Widget, r: Rect, sizes: seq<Size>, i: nat)
    requires i < |sizes| && Roomy(t, r, sizes)
    ensures Inside(Slot(t, r, sizes, i), r, t.padding)
    ensures Slot(t, r, sizes, i).w >= sizes[i].w && Slot(t, r, sizes, i).h >= sizes[i].h
    ensures !sizes[i].grows ==> Slot(t, r, sizes, i).w == sizes[i].w && Slot(t, r, sizes, i).h == sizes[i].h
    ensures sizes[i].grows ==> CrossSize(t, r, sizes, i) == InnerCross(t, r)
  {
    EndsInside(t, r, sizes, i);
    WidestBounds(t.kind, sizes);
  }

  lemma SlotsDisjoint(t: Widget, r: Rect, sizes: seq<Size>, i: nat, j: nat)
    requires i < j < |sizes| && Roomy(t, r, sizes)
    ensures Disjoint(Slot(t, r, sizes, i), Slot(t, r, sizes, j))
  {
    StartsInOrder(t, r, sizes, i, j);
  }

  /** Every widget is at least as large as its natural size, and one that does
      not grow is exactly that large. */
  lemma {:induction false} AtLeastNatural(s: Scene, id: int)
    requires Tree(s.widgets) && id in s.widgets
    ensures RectOf(s, id).w >= NatSize(s, id).w >= 0 && RectOf(s, id).h >= NatSize(s, id).h >= 0
    ensures !NatSize(s, id).grows ==> RectOf(s, id).w == NatSize(s, id).w && RectOf(s, id).h == NatSize(s, id).h
    decreases id, 0
  {
    NatSizeNonNegative(s, id);
    if id > 1 {
      var p := s.widgets[id].parent;
      ContainerRoomy(s, p);
      SlotInside(s.widgets[p], RectOf(s, p), ChildSizes(s, p), IndexIn(s.widgets[p].children, id));
    }
  }

  lemma {:induction false} ContainerRoomy(s: Scene, id: int)
    requires Tree(s.widgets) && id in s.widgets && s.widgets[id].Container()
    ensures Roomy(s.widgets[id], RectOf(s, id), ChildSizes(s, id))
    decreases id, 1
  {
    AtLeastNatural(s, id);
    ChildSizesNonNegative(s, id);
    assert Node(s.widgets, id);
    hide Tree, Natural, RectOf, Widest, Extent, ChildSizes;
    NaturalOfContainer(s.widgets[id], s.measure, ChildSizes(s, id));
  }

  /** A child lies inside its Container's padding. */
  lemma ChildInside(s: Scene, id: int)
    requires Tree(s.widgets) && id in s.widgets && id > 1
    ensures Inside(RectOf(s, id), RectOf(s, s.widgets[id].parent), s.widgets[s.widgets[id].parent].padding)
  {
    var p := s.widgets[id].parent;
    ContainerRoomy(s, p);
    SlotInside(s.widgets[p], RectOf(s, p), ChildSizes(s, p), IndexIn(s.widgets[p].children, id));
  }

  lemma {:induction false} ChildSlot(s: Scene, p: int, i: nat)
    requires Tree(s.widgets) && p in s.widgets && i < |s.widgets[p].children|
    ensures RectOf(s, s.widgets[p].children[i]) == Slot(s.widgets[p], RectOf(s, p), ChildSizes(s, p), i)
  {
    var children := s.widgets[p].children;
    var j := IndexIn(children, children[i]);
    assert i == j;
  }

  /** A rectangle's edges along the main axis of a Column or Row. */
  function Near(kind: Kind, r: Rect): int { if kind == Column then r.y else r.x }

  function Far(kind: Kind, r: Rect): int { if kind == Column then r.y + r.h else r.x + r.w }

  lemma SlotEdges(t: Widget, r: Rect, sizes: seq<Size>, i: nat)
    requires i < |sizes|
    ensures Near(t.kind, Slot(t, r, sizes, i)) == Near(t.kind, r) + t.padding + MainStart(t, r, sizes, i)
    ensures Far(t.kind, Slot(t, r, sizes, i)) == Near(t.kind, r) + t.padding + MainEnd(t, r, sizes, i)
    ensures Far(t.kind, r) == Near(t.kind, r) + 2 * t.padding + InnerMain(t, r)
  {
  }

  lemma ParentIsContainer(widgets: map<int, Widget>, p: int)
    requires Tree(widgets) && p in widgets && widgets[p].children != []
    ensures widgets[p].Container()
  {
    assert Node(widgets, p);
  }

  /** The first child starts at the padding, and consecutive children are
      exactly the Container's spacing apart. */
  lemma ChildSpacing(s: Scene, p: int, i: nat)
    requires Tree(s.widgets) && p in s.widgets && i < |s.widgets[p].children|
    ensures var t := s.widgets[p];
            var a := RectOf(s, t.children[i]);
            && (i == 0 ==> Near(t.kind, a) == Near(t.kind, RectOf(s, p)) + t.padding)
            && (i + 1 < |t.children| ==> Near(t.kind, RectOf(s, t.children[i + 1])) == Far(t.kind, a) + t.spacing)
  {
    hide RectOf, NatSize, Slot, Near, Far, Roomy, Tree, Node;
    ParentIsContainer(s.widgets, p);
    ContainerRoomy(s, p);
    SlotSpacing(s.widgets[p], RectOf(s, p), ChildSizes(s, p), i);
    ChildSlot(s, p, i);
    if i + 1 < |s.widgets[p].children| {
      ChildSlot(s, p, i + 1);
    }
  }

  lemma SlotSpacing(t: Widget, r: Rect, sizes: seq<Size>, i: nat)
    requires i < |sizes| && Roomy(t, r, sizes)
    ensures i == 0 ==> Near(t.kind, Slot(t, r, sizes, i)) == Near(t.kind, r) + t.padding
    ensures i + 1 < |sizes| ==> Near(t.kind, Slot(t, r, sizes, i + 1)) == Far(t.kind, Slot(t, r, sizes, i)) + t.spacing
  {
    SlotEdges(t, r, sizes, i);
    if i + 1 < |sizes| {
      SlotEdges(t, r, sizes, i + 1);
      StartsInOrder(t, r, sizes, i, i + 1);
    }
  }

  /** At its natural size a Container leaves nothing over along its main axis. */
  lemma NaturalIsTight(t: Widget, measure: Text -> nat, r: Rect, sizes: seq<Size>)
    requires Roomy(t, r, sizes) && sizes != []
    requires MainOf(t.kind, Size(r.w, r.h, false)) == MainOf(t.kind, Natural(t, measure, sizes))
    ensures MainEnd(t, r, sizes, |sizes| - 1) == InnerMain(t, r)
    ensures forall i :: 0 <= i < |sizes| ==> MainSize(t, r, sizes, i) == MainOf(t.kind, sizes[i])
  {
    NaturalOfContainer(t, measure, sizes);
    MainStartSum(t, r, sizes, |sizes|);
    assert sizes[..|sizes|] == sizes;
    NothingShared(GrowingBefore(sizes, |sizes|), GrowingBefore(sizes, |sizes|));
    hide Extent, Widest, Natural;
    forall i | 0 <= i < |sizes|
      ensures MainSize(t, r, sizes, i) == MainOf(t.kind, sizes[i])
    {
      NothingShared(GrowingBefore(sizes, |sizes|), GrowingBefore(sizes, i));
    }
  }

  lemma {:induction false} NothingShared(growing: nat, n: nat)
    ensures SharesBefore(0, growing, n) == 0 && Share(0, growing, n) == 0
  {
    if n > 0 {
      NothingShared(growing, n - 1);
    }
  }

  /** Across its main axis a Container is as wide as its widest child needs. */
  lemma NaturalAcross(t: Widget, measure: Text -> nat, sizes: seq<Size>)
    requires t.Container() && Sizes(sizes)
    ensures var cross := CrossOf(t.kind, Natural(t, measure, sizes)) - 2 * t.padding;
            && (sizes == [] ==> Natural(t, measure, sizes) == Size(2 * t.padding, 2 * t.padding, false))
            && (forall i :: 0 <= i < |sizes| ==> CrossOf(t.kind, sizes[i]) <= cross)
            && (sizes != [] ==> exists i :: 0 <= i < |sizes| && CrossOf(t.kind, sizes[i]) == cross)
  {
    NaturalOfContainer(t, measure, sizes);
    WidestBounds(t.kind, sizes);
    WidestAttained(t.kind, sizes);
    hide Natural;
  }

  lemma {:induction false} WidestAttained(kind: Kind, sizes: seq<Size>)
    requires Sizes(sizes)
    ensures sizes != [] ==> exists i :: 0 <= i < |sizes| && CrossOf(kind, sizes[i]) == Widest(kind, sizes)
  {
    if sizes != [] {
      var n := |sizes| - 1;
      WidestAttained(kind, sizes[..n]);
      if n > 0 && Widest(kind, sizes[..n]) > CrossOf(kind, sizes[n]) {
        var i :| 0 <= i < n && CrossOf(kind, sizes[..n][i]) == Widest(kind, sizes[..n]);
        assert CrossOf(kind, sizes[i]) == Widest(kind, sizes);
      } else {
        assert CrossOf(kind, sizes[n]) >= 0;
        assert CrossOf(kind, sizes[n]) == Widest(kind, sizes);
      }
    }
  }

  /** The root is in the window's corner; one that grows covers the window, and is no
      larger than the window and its natural size ask for. */
  lemma RootPlaced(s: Scene)
    requires Tree(s.widgets) && 1 in s.widgets
    ensures var r, size := RectOf(s, 1), NatSize(s, 1);
            && r.x == 0 && r.y == 0
            && (size.grows ==> r.w >= s.width && r.h >= s.height
                               && (r.w == s.width || r.w == size.w) && (r.h == s.height || r.h == size.h))
  {
    hide NatSize;
  }

  /** Children of a Column start at its left padding; children of a Row are centered between
      its upper and lower edge, to a pixel. */
  lemma ChildAligned(s: Scene, p: int, i: nat)
    requires Tree(s.widgets) && p in s.widgets && i < |s.widgets[p].children|
    ensures var t, r, a := s.widgets[p], RectOf(s, p), RectOf(s, s.widgets[p].children[i]);
            if t.kind == Column then a.x == r.x + t.padding
            else var above, below := a.y - r.y, r.y + r.h - (a.y + a.h);
                 above <= below <= above + 1
  {
    hide RectOf, NatSize, Tree;
    ParentIsContainer(s.widgets, p);
    ContainerRoomy(s, p);
    ChildSlot(s, p, i);
    SlotInside(s.widgets[p], RectOf(s, p), ChildSizes(s, p), i);
    hide MainStart, MainSize;
  }

  /** A Container with children is filled from its near to its far padding. */
  lemma ChildrenFill(s: Scene, p: int)
    requires Tree(s.widgets) && p in s.widgets && s.widgets[p].children != []
    ensures var t := s.widgets[p];
            Far(t.kind, RectOf(s, t.children[|t.children| - 1])) == Far(t.kind, RectOf(s, p)) - t.padding
  {
    hide RectOf, NatSize, Slot, Tree, MainEnd, InnerMain, Far, Near;
    var t, r, sizes := s.widgets[p], RectOf(s, p), ChildSizes(s, p);
    LastChildEnds(s, p);
    ChildSlot(s, p, |sizes| - 1);
    SlotEdges(t, r, sizes, |sizes| - 1);
  }

  lemma LastChildEnds(s: Scene, p: int)
    requires Tree(s.widgets) && p in s.widgets && s.widgets[p].children != []
    ensures var t, r, sizes := s.widgets[p], RectOf(s, p), ChildSizes(s, p);
            MainEnd(t, r, sizes, |sizes| - 1) == InnerMain(t, r)
  {
    var t, r, sizes := s.widgets[p], RectOf(s, p), ChildSizes(s, p);
    ParentIsContainer(s.widgets, p);
    assert NatSize(s, p) == Natural(t, s.measure, sizes);
    hide RectOf, NatSize, Slot, Tree, MainEnd, InnerMain, Natural, Roomy;
    ContainerRoomy(s, p);
    NaturalOfContainer(t, s.measure, sizes);
    if AnyGrows(sizes) {
      FillsExactly(t, r, sizes);
    } else {
      AtLeastNatural(s, p);
      NaturalIsTight(t, s.measure, r, sizes);
    }
  }

  /** Growing siblings get shares of the extra space that differ by at most one
      pixel, the older the larger, and fill the cross axis. */
  lemma FairShares(s: Scene, p: int, i: nat, j: nat)
    requires Tree(s.widgets) && p in s.widgets && i < j < |s.widgets[p].children|
    requires ChildSizes(s, p)[i].grows && ChildSizes(s, p)[j].grows
    ensures var t := s.widgets[p];
            var a, b := RectOf(s, t.children[i]), RectOf(s, t.children[j]);
            var m, n := NatSize(s, t.children[i]), NatSize(s, t.children[j]);
            var shareA := if t.kind == Column then a.h - m.h else a.w - m.w;
            var shareB := if t.kind == Column then b.h - n.h else b.w - n.w;
            && 0 <= shareB <= shareA <= shareB + 1
            && (if t.kind == Column then a.w == b.w == InnerCross(t, RectOf(s, p))
                else a.h == b.h == InnerCross(t, RectOf(s, p)))
  {
    var t, r, sizes := s.widgets[p], RectOf(s, p), ChildSizes(s, p);
    ContainerRoomy(s, p);
    ChildSlot(s, p, i);
    ChildSlot(s, p, j);
    SlotInside(t, r, sizes, i);
    SlotInside(t, r, sizes, j);
    GrowingMonotone(sizes, i, j);
    ShareBounds(Extra(t, r, sizes), GrowingBefore(sizes, |sizes|), GrowingBefore(sizes, i), GrowingBefore(sizes, j));
  }

  /** What is above a widget is no younger, and contains it. */
  lemma {:induction false} AboveContains(s: Scene, id: int, k: int)
    requires Tree(s.widgets) && k in s.widgets && Above(s.widgets, id, k)
    ensures id in s.widgets && id <= k && Inside(RectOf(s, k), RectOf(s, id), 0)
    decreases k
  {
    if id != k {
      AboveContains(s, id, s.widgets[k].parent);
      ChildInside(s, k);
    }
  }

  /** Below a proper ancestor there is the child that leads down. */
  lemma {:induction false} ChildTowards(widgets: map<int, Widget>, id: int, k: int) returns (c: int)
    requires Tree(widgets) && k in widgets && Above(widgets, id, k) && id != k
    ensures c in widgets && c <= k && id in widgets && c in widgets[id].children && widgets[c].parent == id
    ensures Above(widgets, c, k)
    decreases k
  {
    var p := widgets[k].parent;
    if p == id {
      c := k;
    } else {
      c := ChildTowards(widgets, id, p);
    }
  }

  lemma SiblingsDisjoint(s: Scene, p: int, a: int, b: int)
    requires Tree(s.widgets) && p in s.widgets && a in s.widgets[p].children && b in s.widgets[p].children && a != b
    ensures a in s.widgets && b in s.widgets && Disjoint(RectOf(s, a), RectOf(s, b))
  {
    var children := s.widgets[p].children;
    var i, j := IndexIn(children, a), IndexIn(children, b);
    ContainerRoomy(s, p);
    ChildSlot(s, p, i);
    ChildSlot(s, p, j);
    if i < j {
      SlotsDisjoint(s.widgets[p], RectOf(s, p), ChildSizes(s, p), i, j);
    } else {
      SlotsDisjoint(s.widgets[p], RectOf(s, p), ChildSizes(s, p), j, i);
    }
  }

  /** Two widgets either stand one above the other or do not overlap. */
  lemma {:induction false} AboveOrDisjoint(s: Scene, a: int, b: int)
    requires Tree(s.widgets) && a in s.widgets && b in s.widgets && a < b
    ensures Above(s.widgets, a, b) || Disjoint(RectOf(s, a), RectOf(s, b))
    decreases a + b
  {
    hide RectOf, NatSize;
    var p := s.widgets[b].parent;
    if p < a {
      AboveOrDisjoint(s, p, a);
      ChildInside(s, b);
      AtLeastNatural(s, b);
      AtLeastNatural(s, a);
      if Above(s.widgets, p, a) {
        var c := ChildTowards(s.widgets, p, a);
        AboveContains(s, c, a);
        SiblingsDisjoint(s, p, c, b);
      }
    } else if p > a {
      AboveOrDisjoint(s, a, p);
      ChildInside(s, b);
    }
  }

  lemma {:induction false} LeafAboveNothing(widgets: map<int, Widget>, a: int, b: int)
    requires Tree(widgets) && a in widgets && b in widgets && !widgets[a].Container() && Above(widgets, a, b)
    ensures a == b
  {
    if a != b {
      var c := ChildTowards(widgets, a, b);
    }
  }

  /** No two leaves overlap. */
  lemma LeavesDisjoint(s: Scene, a: int, b: int)
    requires Tree(s.widgets) && a in s.widgets && b in s.widgets && a != b
    requires !s.widgets[a].Container() && !s.widgets[b].Container()
    ensures Disjoint(RectOf(s, a), RectOf(s, b))
  {
    if a < b {
      AboveOrDisjoint(s, a, b);
      if Above(s.widgets, a, b) {
        LeafAboveNothing(s.widgets, a, b);
      }
    } else {
      AboveOrDisjoint(s, b, a);
      if Above(s.widgets, b, a) {
        LeafAboveNothing(s.widgets, b, a);
      }
    }
  }

  /** At most one leaf is under a point. */
  lemma OneLeafAt(s: Scene, a: int, b: int, x: int, y: int)
    requires Tree(s.widgets) && a in s.widgets && b in s.widgets
    requires !s.widgets[a].Container() && !s.widgets[b].Container()
    requires Contains(RectOf(s, a), x, y) && Contains(RectOf(s, b), x, y)
    ensures a == b
  {
    if a != b {
      LeavesDisjoint(s, a, b);
    }
  }

  // ---- facts about the tree --------------------------------------------------

  lemma {:induction false} AboveTransitive(widgets: map<int, Widget>, a: int, b: int, k: int)
    requires Tree(widgets) && k in widgets && b in widgets && Above(widgets, b, k) && Above(widgets, a, b)
    ensures Above(widgets, a, k)
    decreases k
  {
    if b != k {
      AboveTransitive(widgets, a, b, widgets[k].parent);
    }
  }

  lemma {:induction false} RootAboveAll(widgets: map<int, Widget>, k: int)
    requires Tree(widgets) && k in widgets
    ensures Above(widgets, 1, k)
    decreases k
  {
    if k > 1 {
      RootAboveAll(widgets, widgets[k].parent);
    }
  }

  lemma {:induction false} AboveIsOlder(widgets: map<int, Widget>, id: int, k: int)
    requires Tree(widgets) && k in widgets && Above(widgets, id, k)
    ensures id <= k && id in widgets
    decreases k
  {
    if id != k {
      AboveIsOlder(widgets, id, widgets[k].parent);
    }
  }

  /** Ancestors of one widget stand above one another. */
  lemma {:induction false} AboveLinear(widgets: map<int, Widget>, a: int, b: int, k: int)
    requires Tree(widgets) && k in widgets && a <= b && Above(widgets, a, k) && Above(widgets, b, k)
    ensures b in widgets && Above(widgets, a, b)
    decreases k
  {
    AboveIsOlder(widgets, b, k);
    AboveIsOlder(widgets, a, k);
    if b != k {
      AboveLinear(widgets, a, b, widgets[k].parent);
    }
  }

  /** Different children of one Container have nothing below them in common. */
  lemma SubtreesApart(widgets: map<int, Widget>, p: int, a: int, b: int, k: int)
    requires Tree(widgets) && k in widgets && p in widgets
    requires a in widgets[p].children && b in widgets[p].children && a < b
    ensures !(Above(widgets, a, k) && Above(widgets, b, k))
  {
    if Above(widgets, a, k) && Above(widgets, b, k) {
      AboveLinear(widgets, a, b, k);
      assert Above(widgets, a, p);
      AboveIsOlder(widgets, a, p);
    }
  }

  /** One of the first n children is k or above it. */
  ghost predicate AboveAny(widgets: map<int, Widget>, id: int, n: nat, k: int)
    requires Tree(widgets) && id in widgets && k in widgets && n <= |widgets[id].children|
  {
    exists i :: 0 <= i < n && Above(widgets, widgets[id].children[i], k)
  }

  lemma BelowThroughChildren(widgets: map<int, Widget>, id: int, k: int)
    requires Tree(widgets) && id in widgets && k in widgets
    ensures Above(widgets, id, k) <==> k == id || AboveAny(widgets, id, |widgets[id].children|, k)
    ensures AboveAny(widgets, id, |widgets[id].children|, k) ==> k != id
  {
    var children := widgets[id].children;
    if Above(widgets, id, k) && k != id {
      var c := ChildTowards(widgets, id, k);
      var i := IndexIn(children, c);
      assert Above(widgets, children[i], k);
    }
    if AboveAny(widgets, id, |children|, k) {
      var i :| 0 <= i < |children| && Above(widgets, children[i], k);
      assert Above(widgets, id, children[i]);
      AboveTransitive(widgets, id, children[i], k);
      AboveIsOlder(widgets, children[i], k);
    }
  }

  /** Nothing below child n is below an earlier child. */
  lemma NextChildApart(widgets: map<int, Widget>, id: int, n: nat, k: int)
    requires Tree(widgets) && id in widgets && k in widgets && n < |widgets[id].children|
    ensures AboveAny(widgets, id, n + 1, k) <==>
            AboveAny(widgets, id, n, k) || Above(widgets, widgets[id].children[n], k)
    ensures Above(widgets, widgets[id].children[n], k) ==> !AboveAny(widgets, id, n, k)
  {
    var children := widgets[id].children;
    if Above(widgets, children[n], k) && AboveAny(widgets, id, n, k) {
      var i :| 0 <= i < n && Above(widgets, children[i], k);
      SubtreesApart(widgets, id, children[i], children[n], k);
    }
  }
}
