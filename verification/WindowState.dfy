/** The state of one window: its invariant, what a step of the user may change, and
    what keeps the invariant. */
module WindowState {
  import opened Layout
  import opened TextArea
  import opened Widgets

  datatype Problem =
    | SecondRoot | NoParent | NotContainer | TooMany | NoWidget | WrongKind | BadIndex | Invalid

  /** What a program or a user can read of a widget. */
  datatype Reading = Nothing | TextReading(text: Text) | CheckReading(checked: bool) | SelectReading(selected: int)

  function ReadingOf(t: Widget): Reading {
    match t.kind
    case TextInput => TextReading(t.text)
    case PasswordInput => TextReading(t.text)
    case AreaInput => TextReading(t.text)
    case Checkbox => CheckReading(t.checked)
    case ListBox => SelectReading(t.selected)
    case Select => SelectReading(t.selected)
    case TableView => SelectReading(t.selected)
    case _ => Nothing
  }

  // ---- valid content ------------------------------------------------------------------------

  predicate ValidRune(r: Rune) {
    0 <= r < 0xD800 || 0xE000 <= r <= 0x10FFFF
  }

  predicate ValidText(text: Text, limit: nat) {
    |text| <= limit && forall r :: r in text ==> ValidRune(r) && r != 0
  }

  predicate ValidAreaText(text: Text, limit: nat) {
    ValidText(text, limit) && 13 !in text
  }

  predicate ValidItems(items: seq<Text>) {
    |items| <= MAX_ITEMS && forall item :: item in items ==> ValidText(item, MAX_ITEM_RUNES)
  }

  predicate ValidTable(columns: seq<Text>, rows: seq<seq<Text>>) {
    && 0 < |columns| <= MAX_COLUMNS && |rows| <= MAX_ROWS && |rows| * |columns| <= MAX_CELLS
    && (forall column :: column in columns ==> ValidText(column, MAX_CELL_RUNES))
    && (forall row :: row in rows ==>
          |row| == |columns| && forall cell :: cell in row ==> ValidText(cell, MAX_CELL_RUNES))
  }

  // ---- the invariant ------------------------------------------------------------------------

  /** A widget whose caret, selection and scroll lie inside its content. */
  ghost predicate WidgetInside(t: Widget) {
    && 0 <= t.caret <= |t.text| <= t.Limit()
    && -1 <= t.selected < t.Count() && -1 <= t.highlight < t.Count()
    && ScrollInside(t)
    && (t.kind != ListBox && t.kind != Select ==> t.items == [])
    && (t.kind != TableView ==> t.rows == [])
  }

  ghost predicate AllInside(widgets: map<int, Widget>) {
    forall k :: k in widgets ==> WidgetInside(widgets[k])
  }

  ghost predicate FocusableOrNone(widgets: map<int, Widget>, id: int) {
    id == 0 || (id in widgets && widgets[id].Focusable())
  }

  ghost predicate OpenSelectOrNone(widgets: map<int, Widget>, id: int) {
    id == 0 || (id in widgets && widgets[id].kind == Select && !widgets[id].disabled && ListScrollInside(widgets[id]))
  }

  ghost predicate ScrollingOrNone(widgets: map<int, Widget>, id: int) {
    id == 0 || (id in widgets && widgets[id].Scrolling() && !widgets[id].disabled)
  }

  /** Ids, creation order and root agree with the tree. */
  ghost predicate Numbered(widgets: map<int, Widget>, order: seq<int>, root: int, next: int) {
    && next == |order| == |widgets| <= MAX_WIDGETS && root == (if next == 0 then 0 else 1)
    && (forall i :: 0 <= i < |order| ==> order[i] == i + 1)
  }

  ghost predicate Pointers(widgets: map<int, Widget>, focus: int, pressed: int, popup: int, dragging: int) {
    && FocusableOrNone(widgets, focus) && FocusableOrNone(widgets, pressed)
    && OpenSelectOrNone(widgets, popup) && ScrollingOrNone(widgets, dragging)
  }

  ghost predicate Changes(widgets: map<int, Widget>, changes: seq<int>) {
    && (forall i :: 0 <= i < |changes| ==> changes[i] in widgets)
    && (forall i, j :: 0 <= i < j < |changes| ==> changes[i] != changes[j])
  }

  /** The whole state of a window. */
  datatype Window = Window(
    width: int, height: int, resizable: bool,
    widgets: map<int, Widget>,
    order: seq<int>,      // the ids, oldest first
    root: int, next: int,
    focus: int, pressed: int,
    popup: int,           // an open Select; 0 for none
    list: Rect,           // meaningful while popup is not 0
    dragging: int,        // 0 while no bar is held
    grabY: int,
    changes: seq<int>)    // the queue of the next report

  /** The global invariant. */
  ghost predicate Whole(s: Window) {
    && 1 <= s.width <= MAX_DIMENSION && 1 <= s.height <= MAX_DIMENSION
    && Tree(s.widgets) && Numbered(s.widgets, s.order, s.root, s.next)
    && AllInside(s.widgets) && Pointers(s.widgets, s.focus, s.pressed, s.popup, s.dragging)
    && Changes(s.widgets, s.changes)
  }

  // ---- steps of the user --------------------------------------------------------------------

  /** b is a with other text, check state, selection, carets, scrolls and places. */
  predicate SameByUser(a: Widget, b: Widget) {
    b == a.(text := b.text, checked := b.checked, caret := b.caret, scroll := b.scroll, selected := b.selected,
            scrollX := b.scrollX, scrollY := b.scrollY, highlight := b.highlight, listScroll := b.listScroll,
            x := b.x, y := b.y, w := b.w, h := b.h, natW := b.natW, natH := b.natH, grows := b.grows)
  }

  ghost predicate SameStructure(a: map<int, Widget>, b: map<int, Widget>) {
    a.Keys == b.Keys && forall k :: k in a ==> SameByUser(a[k], b[k])
  }

  /** Exactly the widgets whose reading changed join the queue, at its end. */
  ghost predicate Noted(a: map<int, Widget>, b: map<int, Widget>, before: seq<int>, after: seq<int>) {
    && a.Keys == b.Keys && before <= after
    && forall k :: k in b ==> (k in after <==> k in before || ReadingOf(a[k]) != ReadingOf(b[k]))
  }

  /** A user changes no structure, and every reading a user changes is queued. */
  ghost predicate UserStep(a: map<int, Widget>, b: map<int, Widget>, before: seq<int>, after: seq<int>) {
    SameStructure(a, b) && Noted(a, b, before, after)
  }

  ghost predicate SameReadings(a: map<int, Widget>, b: map<int, Widget>) {
    a.Keys == b.Keys && forall k :: k in a ==> ReadingOf(a[k]) == ReadingOf(b[k])
  }

  // ---- what keeps the invariant -------------------------------------------------------------

  /** Replacing one widget's content keeps the tree and the other widgets. */
  lemma UpdateInside(widgets: map<int, Widget>, id: int, t: Widget)
    requires Tree(widgets) && AllInside(widgets) && id in widgets && WidgetInside(t)
    requires t.id == widgets[id].id && t.kind == widgets[id].kind && t.parent == widgets[id].parent
    requires t.children == widgets[id].children && t.spacing == widgets[id].spacing && t.padding == widgets[id].padding
    requires forall i :: 0 <= i < |t.widths| ==> 0 <= t.widths[i]
    ensures Tree(widgets[id := t]) && AllInside(widgets[id := t]) && widgets[id := t].Keys == widgets.Keys
    ensures |widgets[id := t]| == |widgets|
  {
    var updated := widgets[id := t];
    assert |updated.Keys| == |widgets.Keys|;
    hide Node, WidgetInside;
    forall k | k in updated
      ensures Node(updated, k)
    {
      UpdateNode(widgets, id, t, k);
    }
  }

  lemma UpdateNode(widgets: map<int, Widget>, id: int, t: Widget, k: int)
    requires id in widgets && k in widgets && Node(widgets, k)
    requires t.id == widgets[id].id && t.kind == widgets[id].kind && t.parent == widgets[id].parent
    requires t.children == widgets[id].children && t.spacing == widgets[id].spacing && t.padding == widgets[id].padding
    requires forall i :: 0 <= i < |t.widths| ==> 0 <= t.widths[i]
    ensures Node(widgets[id := t], k)
  {
  }

  lemma UserUpdates(widgets: map<int, Widget>, id: int, t: Widget, before: seq<int>, after: seq<int>)
    requires id in widgets && SameByUser(widgets[id], t)
    requires after == if ReadingOf(t) == ReadingOf(widgets[id]) || id in before then before else before + [id]
    ensures UserStep(widgets, widgets[id := t], before, after)
  {
  }

  lemma QuietThenStep(a: map<int, Widget>, b: map<int, Widget>, c: map<int, Widget>, before: seq<int>, after: seq<int>)
    requires SameStructure(a, b) && SameReadings(a, b) && UserStep(b, c, before, after)
    ensures UserStep(a, c, before, after)
  {
    forall k | k in a
      ensures SameByUser(a[k], c[k])
    {
      assert SameByUser(a[k], b[k]) && SameByUser(b[k], c[k]);
    }
  }

  lemma QuietStep(a: map<int, Widget>, b: map<int, Widget>, changes: seq<int>)
    requires SameStructure(a, b) && SameReadings(a, b)
    ensures UserStep(a, b, changes, changes)
  {
  }

  lemma QuietSelf(widgets: map<int, Widget>)
    ensures SameStructure(widgets, widgets) && SameReadings(widgets, widgets)
  {
  }

  lemma OpenListStays(a: map<int, Widget>, b: map<int, Widget>, focus: int, pressed: int, popup: int, dragging: int)
    requires Pointers(a, focus, pressed, popup, dragging) && SameStructure(a, b)
    requires forall k :: k in b ==> b[k].listScroll == a[k].listScroll
    ensures a.Keys == b.Keys
    ensures popup != 0 ==> popup in b && ListScrollInside(b[popup])
  {
    assert popup in a ==> SameByUser(a[popup], b[popup]);
  }

  lemma StructureKeepsTree(a: map<int, Widget>, b: map<int, Widget>)
    requires Tree(a) && SameStructure(a, b)
    ensures Tree(b) && |a| == |b|
  {
    assert |a.Keys| == |b.Keys|;
    hide Node, SameStructure;
    forall k | k in b
      ensures Node(b, k)
    {
      StructureNode(a, b, k);
    }
  }

  lemma StructureNode(a: map<int, Widget>, b: map<int, Widget>, k: int)
    requires SameStructure(a, b) && k in a && Node(a, k)
    ensures k in b && Node(b, k)
  {
    assert SameByUser(a[k], b[k]);
  }

  /** A change by the user leaves every pointer into the window good. */
  lemma StructureKeepsPointers(a: map<int, Widget>, b: map<int, Widget>, focus: int, pressed: int, popup: int,
                               dragging: int)
    requires SameStructure(a, b) && Pointers(a, focus, pressed, popup, dragging)
    requires popup != 0 ==> popup in b && ListScrollInside(b[popup])
    ensures Pointers(b, focus, pressed, popup, dragging)
  {
    assert focus in a ==> SameByUser(a[focus], b[focus]);
    assert pressed in a ==> SameByUser(a[pressed], b[pressed]);
    assert popup in a ==> SameByUser(a[popup], b[popup]);
    assert dragging in a ==> SameByUser(a[dragging], b[dragging]);
  }

  /** Two widgets with the same place in the tree. */
  ghost predicate SameNode(a: Widget, b: Widget) {
    && b.id == a.id && b.kind == a.kind && b.parent == a.parent && b.children == a.children
    && b.spacing == a.spacing && b.padding == a.padding
    && (forall i :: 0 <= i < |b.widths| ==> 0 <= b.widths[i])
  }

  /** Replacing one widget by another that is inside its content, no less
      enabled and in the same place of the tree keeps the whole invariant. */
  lemma UpdateKeepsWhole(s: Window, id: int, t: Widget)
    requires Whole(s) && id in s.widgets && SameNode(s.widgets[id], t) && WidgetInside(t)
    requires t.disabled ==> s.widgets[id].disabled || id !in {s.focus, s.pressed, s.popup, s.dragging}
    requires id == s.popup ==> ListScrollInside(t)
    ensures Whole(s.(widgets := s.widgets[id := t]))
  {
    hide Tree, WidgetInside;
    UpdateInside(s.widgets, id, t);
  }

  lemma WidgetFacts(s: Window, id: int)
    requires Whole(s) && id in s.widgets
    ensures WidgetInside(s.widgets[id]) && SameNode(s.widgets[id], s.widgets[id])
    ensures s.widgets[id].id == id && 1 <= id <= s.next
    ensures id == s.popup ==> s.widgets[id].kind == Select && !s.widgets[id].disabled && ListScrollInside(s.widgets[id])
    ensures id == s.focus || id == s.pressed ==> s.widgets[id].Focusable()
    ensures id == s.dragging ==> s.widgets[id].Scrolling() && !s.widgets[id].disabled
  {
    assert Node(s.widgets, id);
  }

  /** What the pointers of a whole window point to. */
  lemma PointerFacts(s: Window)
    requires Whole(s)
    ensures (s.focus != 0 <==> s.focus in s.widgets) && (s.pressed != 0 <==> s.pressed in s.widgets)
    ensures (s.popup != 0 <==> s.popup in s.widgets) && (s.dragging != 0 <==> s.dragging in s.widgets)
    ensures FocusableOrNone(s.widgets, s.focus) && FocusableOrNone(s.widgets, s.pressed)
    ensures FocusableOrNone(s.widgets, s.popup)
    ensures s.popup in s.widgets ==> ListScrollInside(s.widgets[s.popup]) && s.widgets[s.popup].kind == Select
    ensures 0 !in s.widgets
  {
  }

  /** Its tree, its numbers and its queue. */
  lemma TreeFacts(s: Window)
    requires Whole(s)
    ensures Tree(s.widgets) && Changes(s.widgets, s.changes)
    ensures s.next == |s.order| == |s.widgets| && s.next + 1 !in s.widgets && 0 !in s.widgets
  {
  }

  /** Other fields than the widgets may change as long as every pointer stays good. */
  lemma FieldsKeepWhole(s: Window, after: Window)
    requires Whole(s)
    requires (after.width == s.width && after.height == s.height)
             || (1 <= after.width <= MAX_DIMENSION && 1 <= after.height <= MAX_DIMENSION)
    requires after == s.(width := after.width, height := after.height, resizable := after.resizable,
                        focus := after.focus,
                         pressed := after.pressed, popup := after.popup, list := after.list, dragging := after.dragging,
                         grabY := after.grabY)
    requires after.focus in {0, s.focus} || FocusableOrNone(s.widgets, after.focus)
    requires after.pressed in {0, s.pressed} || FocusableOrNone(s.widgets, after.pressed)
    requires after.popup in {0, s.popup} || OpenSelectOrNone(s.widgets, after.popup)
    requires after.dragging in {0, s.dragging} || ScrollingOrNone(s.widgets, after.dragging)
    ensures Whole(after)
  {
    hide Tree, AllInside, Numbered, Changes;
  }

  lemma StructureKeepsIds(a: map<int, Widget>, b: map<int, Widget>, order: seq<int>, root: int, next: int,
                          changes: seq<int>)
    requires Tree(a) && SameStructure(a, b) && Numbered(a, order, root, next) && Changes(a, changes)
    ensures Tree(b) && Numbered(b, order, root, next) && Changes(b, changes)
  {
    hide Tree;
    StructureKeepsTree(a, b);
  }

  function Noting(changes: seq<int>, id: int): seq<int> {
    if id in changes then changes else changes + [id]
  }

  predicate SameNodeFields(a: Widget, b: Widget) {
    && b.id == a.id && b.kind == a.kind && b.parent == a.parent && b.children == a.children
    && b.spacing == a.spacing && b.padding == a.padding && b.widths == a.widths && b.disabled == a.disabled
    && b.items == a.items && b.rows == a.rows
  }

  lemma NotingKeepsChanges(s: Window, id: int)
    requires Whole(s) && id in s.widgets
    ensures Whole(s.(changes := Noting(s.changes, id)))
  {
    hide Tree, AllInside, Pointers, Numbered;
  }

  function RectNow(t: Widget): Rect {
    Rect(t.x, t.y, t.w, t.h)
  }

  /** A leaf whose rectangle holds the point. */
  predicate LeafAt(t: Widget, x: int, y: int) {
    !t.Container() && Contains(RectNow(t), x, y)
  }

  lemma OrderFacts(s: Window)
    requires Whole(s)
    ensures forall i :: 0 <= i < |s.order| ==> s.order[i] in s.widgets && s.order[i] == i + 1
    ensures forall k :: k in s.widgets ==> 1 <= k <= |s.order|
  {
  }

  lemma StepThenQuiet(a: map<int, Widget>, b: map<int, Widget>, c: map<int, Widget>, before: seq<int>, after: seq<int>)
    requires UserStep(a, b, before, after) && SameStructure(b, c) && SameReadings(b, c)
    ensures UserStep(a, c, before, after)
  {
    forall k | k in a
      ensures SameByUser(a[k], c[k])
    {
      assert SameByUser(a[k], b[k]) && SameByUser(b[k], c[k]);
    }
  }

  lemma QuietTwice(a: map<int, Widget>, b: map<int, Widget>, c: map<int, Widget>)
    requires SameStructure(a, b) && SameReadings(a, b) && SameStructure(b, c) && SameReadings(b, c)
    ensures SameStructure(a, c) && SameReadings(a, c)
  {
    forall k | k in a
      ensures SameByUser(a[k], c[k])
    {
      assert SameByUser(a[k], b[k]) && SameByUser(b[k], c[k]);
    }
  }

  lemma StructureAt(a: map<int, Widget>, b: map<int, Widget>, id: int)
    requires SameStructure(a, b) && id in a
    ensures a.Keys == b.Keys && SameByUser(a[id], b[id])
  {
  }

  /** One widget's kind, enabledness and content survive a step of the user. */
  lemma StepAt(a: map<int, Widget>, b: map<int, Widget>, before: seq<int>, after: seq<int>, id: int)
    requires UserStep(a, b, before, after) && id in a
    ensures id in b && SameByUser(a[id], b[id])
  {
  }

  /** Only one widget is read differently. */
  ghost predicate OthersRead(a: map<int, Widget>, b: map<int, Widget>, id: int) {
    a.Keys == b.Keys && forall k :: k in a && k != id ==> ReadingOf(a[k]) == ReadingOf(b[k])
  }

  lemma OthersReadUpdate(a: map<int, Widget>, b: map<int, Widget>, id: int, t: Widget)
    requires SameReadings(a, b) && id in b
    ensures OthersRead(a, b[id := t], id)
  {
  }

  lemma OthersReadQuiet(a: map<int, Widget>, b: map<int, Widget>, c: map<int, Widget>, id: int)
    requires SameReadings(a, b) && SameReadings(b, c)
    ensures OthersRead(a, c, id)
  {
  }

  lemma InsideFacts(t: Widget)
    requires WidgetInside(t)
    ensures 0 <= t.caret <= |t.text| <= t.Limit() && -1 <= t.selected < t.Count() && -1 <= t.highlight < t.Count()
  {
  }

  lemma StepKeepsFocusable(a: map<int, Widget>, b: map<int, Widget>, before: seq<int>, after: seq<int>, id: int)
    requires UserStep(a, b, before, after) && FocusableOrNone(a, id)
    ensures FocusableOrNone(b, id)
  {
    assert id in a ==> SameByUser(a[id], b[id]);
  }

  lemma SameNodeOf(a: Widget, b: Widget)
    requires SameNode(a, a) && SameNodeFields(a, b)
    ensures SameNode(a, b) && (a.listScroll == b.listScroll ==> ListScrollInside(a) == ListScrollInside(b))
  {
  }

  // ---- the values a window reports ----------------------------------------------------------

  /** Id and reading of each listed widget that has a reading, in the order given. */
  function ValuesOf(widgets: map<int, Widget>, order: seq<int>): seq<(int, Reading)> {
    if order == [] then [] else
      var before, id := ValuesOf(widgets, order[..|order| - 1]), order[|order| - 1];
      if id in widgets && ReadingOf(widgets[id]) != Nothing then before + [(id, ReadingOf(widgets[id]))] else before
  }

  /** The values hold exactly the readings of the listed widgets ... */
  lemma {:induction false} ValuesComplete(widgets: map<int, Widget>, order: seq<int>, id: int, reading: Reading)
    ensures (id, reading) in ValuesOf(widgets, order) <==>
            id in order && id in widgets && reading == ReadingOf(widgets[id]) && reading != Nothing
  {
    if order != [] {
      var last := order[|order| - 1];
      ValuesComplete(widgets, order[..|order| - 1], id, reading);
      assert id in order <==> id in order[..|order| - 1] || id == last;
    }
  }

  ghost predicate InOrder(values: seq<(int, Reading)>, order: seq<int>) {
    && (forall i :: 0 <= i < |values| ==> values[i].0 in order)
    && (forall i, j :: 0 <= i < j < |values| ==> values[i].0 < values[j].0)
  }

  /** ... each widget once, in creation order. */
  lemma {:induction false} ValuesInOrder(widgets: map<int, Widget>, order: seq<int>)
    requires forall i, j :: 0 <= i < j < |order| ==> order[i] < order[j]
    ensures InOrder(ValuesOf(widgets, order), order)
  {
    if order != [] {
      var rest, last := order[..|order| - 1], order[|order| - 1];
      ValuesInOrder(widgets, rest);
      var before, values := ValuesOf(widgets, rest), ValuesOf(widgets, order);
      forall i | 0 <= i < |before|
        ensures before[i].0 in order && before[i].0 < last
      {
        assert before[i].0 in rest;
        var j :| 0 <= j < |rest| && rest[j] == before[i].0;
        assert order[j] == rest[j];
      }
    }
  }

  lemma OthersReadThrough(a: map<int, Widget>, b: map<int, Widget>, c: map<int, Widget>, d: map<int, Widget>, id: int)
    requires SameReadings(a, b) && OthersRead(b, c, id) && SameReadings(c, d)
    ensures OthersRead(a, d, id)
  {
  }
}
