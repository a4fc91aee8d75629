/** The program's requests: new widgets, new content, and enabling. */
module WindowRequests {
  import opened Layout
  import opened Options
  import opened TextArea
  import opened Widgets
  import opened WindowState

  /** A widget as a program asks for it. */
  datatype Spec = Spec(
    kind: Kind, text: Text, placeholder: Text, checked: bool, spacing: int, padding: int,
    items: seq<Text>, columns: seq<Text>, rows: seq<seq<Text>>, selected: int)

  predicate ValidSpec(spec: Spec) {
    && (if spec.kind == AreaInput then ValidAreaText(spec.text, MAX_AREA_RUNES)
        else ValidText(spec.text, MAX_TEXT_RUNES))
    && ValidText(spec.placeholder, MAX_TEXT_RUNES)
    && 0 <= spec.spacing <= MAX_SPACING && 0 <= spec.padding <= MAX_SPACING
    && ValidItems(spec.items) && (spec.kind == TableView ==> ValidTable(spec.columns, spec.rows))
  }

  /** Why a widget is refused; the first reason wins. */
  function AddProblem(s: Window, parent: int, spec: Spec): Option<Problem> {
    if |s.widgets| >= MAX_WIDGETS then Some(TooMany)
    else if !ValidSpec(spec) then Some(Invalid)
    else if spec.kind in {ListBox, Select} && !(-1 <= spec.selected < |spec.items|) then Some(BadIndex)
    else if parent == 0 && s.root != 0 then Some(SecondRoot)
    else if parent != 0 && parent !in s.widgets then Some(NoParent)
    else if parent == 0 && spec.kind !in {Column, Row} then Some(NotContainer)
    else if parent != 0 && !s.widgets[parent].Container() then Some(NotContainer)
    else None
  }

  /** A widget is taken exactly when there is room for it, its content is valid, its selection
      exists, and it is the first and a Container or goes into a Container. */
  lemma AddAllowed(s: Window, parent: int, spec: Spec)
    requires Whole(s)
    ensures AddProblem(s, parent, spec).None? <==>
              && |s.widgets| < 1024 && ValidSpec(spec)
              && (spec.kind == ListBox || spec.kind == Select ==> -1 <= spec.selected < |spec.items|)
              && (if s.widgets == map[] then parent == 0 && (spec.kind == Column || spec.kind == Row)
                  else parent in s.widgets && s.widgets[parent].Container())
  {
    EmptyTree(s);
    PointerFacts(s);
    hide ValidSpec, Whole;
    if s.widgets == map[] {
      assert parent !in s.widgets;
    }
  }

  /** The reasons, the first that applies. */
  lemma AddRefused(s: Window, parent: int, spec: Spec)
    ensures var p := AddProblem(s, parent, spec);
            && (p == Some(TooMany) <==> |s.widgets| >= 1024)
            && (p == Some(Invalid) <==> |s.widgets| < 1024 && !ValidSpec(spec))
            && (p == Some(SecondRoot) ==> parent == 0 && s.root != 0)
            && (p == Some(NoParent) ==> parent != 0 && parent !in s.widgets)
            && (p == Some(NotContainer) ==> if parent == 0 then spec.kind != Column && spec.kind != Row
                                            else parent in s.widgets && !s.widgets[parent].Container())
            && p !in {Some(NoWidget), Some(WrongKind)}
  {
    hide ValidSpec;
  }

  /** The widest header or non-empty cell of a column in the first n rows. */
  function WidestCell(measure: Text -> nat, columns: seq<Text>, rows: seq<seq<Text>>, column: nat, n: nat): nat
    requires column < |columns| && n <= |rows| && forall row :: row in rows ==> |row| == |columns|
  {
    if n == 0 then measure(columns[column]) else
      var before := WidestCell(measure, columns, rows, column, n - 1);
      var cell := rows[n - 1][column];
      if cell != [] then Max(before, measure(cell)) else before
  }

  function ColumnWidth(measure: Text -> nat, columns: seq<Text>, rows: seq<seq<Text>>, column: nat): (width: int)
    requires column < |columns| && forall row :: row in rows ==> |row| == |columns|
    ensures MIN_COLUMN_WIDTH <= width <= MAX_COLUMN_WIDTH
  {
    var widest := WidestCell(measure, columns, rows, column, Min(|rows|, MEASURED_ROWS));
    Min(Max(widest + 2 * ITEM_INSET, MIN_COLUMN_WIDTH), MAX_COLUMN_WIDTH)
  }

  /** The widest cell is at least as wide as the header and each cell that is not empty, and
      is one of them. */
  lemma {:induction false} WidestCellBounds(measure: Text -> nat, columns: seq<Text>, rows: seq<seq<Text>>, column: nat,
                                            n: nat)
    requires column < |columns| && n <= |rows| && forall row :: row in rows ==> |row| == |columns|
    ensures var widest := WidestCell(measure, columns, rows, column, n);
            && measure(columns[column]) <= widest
            && (forall i :: 0 <= i < n && rows[i][column] != [] ==> measure(rows[i][column]) <= widest)
            && (widest == measure(columns[column])
                || exists i :: 0 <= i < n && rows[i][column] != [] && measure(rows[i][column]) == widest)
  {
    if n > 0 {
      WidestCellBounds(measure, columns, rows, column, n - 1);
    }
  }

  /** A column shows its header and its first thousand cells with 8 pixels on either side, as
      far as the greatest width allows, and is no wider than that needs. */
  lemma ColumnNeeds(measure: Text -> nat, columns: seq<Text>, rows: seq<seq<Text>>, column: nat, i: nat)
    requires column < |columns| && forall row :: row in rows ==> |row| == |columns|
    requires i < |rows| && i < 1000
    ensures var width := ColumnWidth(measure, columns, rows, column);
            && 48 <= width <= 320
            && (width < 320 ==> width >= measure(columns[column]) + 16)
            && (width < 320 && rows[i][column] != [] ==> width >= measure(rows[i][column]) + 16)
            && (width > 48 ==> SomeCell(measure, columns, rows, column, width - 16))
  {
    WidestCellBounds(measure, columns, rows, column, Min(|rows|, MEASURED_ROWS));
    hide WidestCell;
  }

  ghost predicate SomeCell(measure: Text -> nat, columns: seq<Text>, rows: seq<seq<Text>>, column: nat, width: int)
    requires column < |columns| && forall row :: row in rows ==> |row| == |columns|
  {
    measure(columns[column]) >= width || exists i :: 0 <= i < |rows| && measure(rows[i][column]) >= width
  }

  function WidthsOf(measure: Text -> nat, columns: seq<Text>, rows: seq<seq<Text>>): (widths: seq<int>)
    requires forall row :: row in rows ==> |row| == |columns|
    ensures |widths| == |columns| && forall i :: 0 <= i < |widths| ==> 0 <= widths[i]
  {
    seq(|columns|, i requires 0 <= i < |columns| => ColumnWidth(measure, columns, rows, i))
  }

  /** The column widths of a new widget: those of its table, if it is one. */
  function SpecWidths(measure: Text -> nat, spec: Spec): (widths: seq<int>)
    ensures forall i :: 0 <= i < |widths| ==> 0 <= widths[i]
  {
    if spec.kind == TableView && ValidTable(spec.columns, spec.rows) then WidthsOf(measure, spec.columns, spec.rows)
    else []
  }

  lemma SpecWidthsOf(measure: Text -> nat, spec: Spec)
    requires ValidSpec(spec)
    ensures spec.kind != TableView ==> SpecWidths(measure, spec) == []
    ensures spec.kind == TableView ==>
              (forall row :: row in spec.rows ==> |row| == |spec.columns|)
              && SpecWidths(measure, spec) == WidthsOf(measure, spec.columns, spec.rows)
  {
    hide WidthsOf;
  }

  /** The widget a program gets. */
  function Created(id: int, parent: int, spec: Spec, widths: seq<int>): Widget {
    var choosing, table := spec.kind in {ListBox, Select}, spec.kind == TableView;
    Widget(id, spec.kind, parent, [], spec.text, spec.placeholder, spec.checked, spec.spacing, spec.padding,
           |spec.text|, 0,
           if choosing then spec.items else [], if table then spec.columns else [], if table then spec.rows else [],
           if table then widths else [], if choosing then spec.selected else -1,
           0, 0, -1, 0, false, 0, 0, 0, 0, 0, 0, false)
  }

  lemma CreatedFacts(id: int, parent: int, spec: Spec, widths: seq<int>)
    ensures Created(id, parent, spec, widths).id == id
    ensures spec.kind == TableView ==> Created(id, parent, spec, widths).widths == widths
    ensures var t := Created(id, parent, spec, widths);
            && t.kind == spec.kind && t.parent == parent && t.children == []
            && t.spacing == spec.spacing && t.padding == spec.padding && (t.widths == widths || t.widths == [])
  {
  }

  /** A new widget holds what was asked for, enabled, with its caret at the end of its text. */
  lemma CreatedHolds(id: int, parent: int, spec: Spec, widths: seq<int>)
    ensures var t := Created(id, parent, spec, widths);
            && t.text == spec.text && t.placeholder == spec.placeholder && t.checked == spec.checked && !t.disabled
            && t.caret == |t.text| && t.scroll == t.scrollX == t.scrollY == t.listScroll == 0 && t.highlight == -1
            && (t.kind == ListBox || t.kind == Select ==> t.items == spec.items && t.selected == spec.selected)
            && (t.kind != ListBox && t.kind != Select ==> t.items == [] && t.selected == -1)
            && (t.kind == TableView ==> t.columns == spec.columns && t.rows == spec.rows)
            && (t.kind != TableView ==> t.columns == [] && t.rows == [])
  {
  }

  lemma CreatedInside(id: int, parent: int, spec: Spec, widths: seq<int>)
    requires ValidSpec(spec) && (spec.kind in {ListBox, Select} ==> -1 <= spec.selected < |spec.items|)
    ensures WidgetInside(Created(id, parent, spec, widths))
  {
  }

  /** The widgets after one more joined its parent's children, if it has a parent. */
  function Added(widgets: map<int, Widget>, parent: int, t: Widget): map<int, Widget> {
    var owned := if parent in widgets
                 then widgets[parent := widgets[parent].(children := widgets[parent].children + [t.id])]
                 else widgets;
    owned[t.id := t]
  }

  /** The order of the two map updates does not matter. */
  lemma AddedOrder(widgets: map<int, Widget>, parent: int, t: Widget)
    requires t.id !in widgets
    ensures parent in widgets ==>
      Added(widgets, parent, t) ==
        widgets[t.id := t][parent := widgets[parent].(children := widgets[parent].children + [t.id])]
    ensures parent !in widgets ==> Added(widgets, parent, t) == widgets[t.id := t]
  {
  }

  lemma AddedIds(widgets: map<int, Widget>, parent: int, t: Widget)
    requires (forall id :: id in widgets <==> 1 <= id <= |widgets|) && t.id == |widgets| + 1
    ensures var after := Added(widgets, parent, t);
            && |after| == |widgets| + 1 && (forall id :: id in after <==> 1 <= id <= |after|)
            && forall id :: id in after <==> id in widgets || id == t.id
  {
    var after := Added(widgets, parent, t);
    assert after.Keys == widgets.Keys + {t.id};
    assert |after| == |after.Keys| && |widgets| == |widgets.Keys|;
  }

  lemma InTree(widgets: map<int, Widget>, id: int)
    requires Tree(widgets) && id in widgets
    ensures 1 <= id <= |widgets|
  {
  }

  lemma NewNode(widgets: map<int, Widget>, parent: int, t: Widget)
    requires Tree(widgets) && t.id == |widgets| + 1 && t.parent == parent && t.children == []
    requires 0 <= t.spacing && 0 <= t.padding && forall i :: 0 <= i < |t.widths| ==> 0 <= t.widths[i]
    requires if widgets == map[] then parent == 0 && t.Container()
             else parent in widgets && widgets[parent].Container()
    ensures Node(Added(widgets, parent, t), t.id)
  {
    var after := Added(widgets, parent, t);
    if widgets == map[] {
      assert |widgets| == 0;
    } else {
      InTree(widgets, parent);
      var children := widgets[parent].children;
      assert (children + [t.id])[|children|] == t.id;
      assert after[parent].children == children + [t.id];
    }
  }

  lemma AddedAt(widgets: map<int, Widget>, parent: int, t: Widget, k: int)
    requires t.id !in widgets && (k in widgets || k == t.id)
    ensures var after := Added(widgets, parent, t);
            && k in after && t.id in after && after[t.id] == t
            && (k in widgets ==>
                  after[k] == if k == parent then widgets[k].(children := widgets[k].children + [t.id]) else widgets[k])
  {
  }

  lemma AddedKeys(widgets: map<int, Widget>, parent: int, t: Widget)
    ensures Added(widgets, parent, t).Keys == widgets.Keys + {t.id}
  {
    assert forall k :: k in Added(widgets, parent, t) <==> k in widgets || k == t.id;
  }

  lemma OldNode(widgets: map<int, Widget>, parent: int, t: Widget, id: int)
    requires Tree(widgets) && t.id == |widgets| + 1 && t.parent == parent && id in widgets
    requires parent in widgets && widgets[parent].Container()
    ensures id in Added(widgets, parent, t) && Node(Added(widgets, parent, t), id)
  {
    assert Node(widgets, id) && t.id !in widgets;
    hide Tree, Added;
    var after := Added(widgets, parent, t);
    InTree(widgets, id);
    AddedAt(widgets, parent, t, id);
    var a, b := widgets[id], after[id];
    forall i | 0 <= i < |b.children|
      ensures id < b.children[i] && b.children[i] in after && after[b.children[i]].parent == id
      ensures b.children[i] <= t.id && (i < |a.children| ==> b.children[i] < t.id)
    {
      if i < |a.children| {
        InTree(widgets, a.children[i]);
        AddedAt(widgets, parent, t, a.children[i]);
      }
    }
    if id != 1 {
      AddedAt(widgets, parent, t, b.parent);
    }
  }

  lemma AddedKeepsTree(widgets: map<int, Widget>, parent: int, t: Widget)
    requires Tree(widgets) && t.id == |widgets| + 1 && t.parent == parent && t.children == []
    requires 0 <= t.spacing && 0 <= t.padding && forall i :: 0 <= i < |t.widths| ==> 0 <= t.widths[i]
    requires if widgets == map[] then parent == 0 && t.Container()
             else parent in widgets && widgets[parent].Container()
    ensures Tree(Added(widgets, parent, t)) && |Added(widgets, parent, t)| == |widgets| + 1
  {
    AddedIds(widgets, parent, t);
    hide Node, Added;
    var after := Added(widgets, parent, t);
    forall id | id in after
      ensures Node(after, id)
    {
      if id in widgets {
        OldNode(widgets, parent, t, id);
      } else {
        NewNode(widgets, parent, t);
      }
    }
  }

  lemma EmptyTree(s: Window)
    requires Whole(s)
    ensures s.root == 0 <==> s.widgets == map[]
    ensures |s.widgets| == s.next
  {
    if s.root == 0 {
      assert |s.widgets| == 0;
    }
  }

  lemma ChildrenInside(a: Widget, b: Widget)
    requires WidgetInside(a) && b == a.(children := b.children)
    ensures WidgetInside(b)
  {
  }

  lemma AddedKeepsInside(widgets: map<int, Widget>, parent: int, t: Widget)
    requires AllInside(widgets) && WidgetInside(t)
    ensures AllInside(Added(widgets, parent, t))
  {
    hide WidgetInside;
    var after := Added(widgets, parent, t);
    forall k | k in after
      ensures WidgetInside(after[k])
    {
      if k != t.id && k == parent {
        ChildrenInside(widgets[k], after[k]);
      }
    }
  }

  lemma AddedKeepsPointers(s: Window, parent: int, t: Widget)
    requires Whole(s) && t.id !in s.widgets
    ensures var widgets := Added(s.widgets, parent, t);
            && Pointers(widgets, s.focus, s.pressed, s.popup, s.dragging) && Changes(widgets, s.changes)
  {
    hide Tree, AllInside, Numbered;
    var widgets := Added(s.widgets, parent, t);
    assert forall k :: k in s.widgets ==> k in widgets && widgets[k] == s.widgets[k].(children := widgets[k].children);
  }

  lemma AddFits(s: Window, parent: int, spec: Spec)
    requires Whole(s) && AddProblem(s, parent, spec).None?
    ensures ValidSpec(spec) && (spec.kind in {ListBox, Select} ==> -1 <= spec.selected < |spec.items|)
    ensures 0 <= spec.spacing && 0 <= spec.padding
    ensures |s.widgets| < MAX_WIDGETS && Tree(s.widgets)
    ensures parent != 0 ==> parent in s.widgets
    ensures spec.kind == TableView ==>
      ValidTable(spec.columns, spec.rows) && forall row :: row in spec.rows ==> |row| == |spec.columns|
    ensures if s.widgets == map[] then parent == 0 && spec.kind in {Column, Row}
            else parent in s.widgets && s.widgets[parent].Container()
  {
    EmptyTree(s);
    if s.widgets == map[] {
      assert parent !in s.widgets;
    }
  }

  lemma AddKeepsWhole(s: Window, parent: int, spec: Spec, widths: seq<int>)
    requires Whole(s) && AddProblem(s, parent, spec).None? && forall i :: 0 <= i < |widths| ==> 0 <= widths[i]
    ensures var id := s.next + 1;
            var widgets := Added(s.widgets, parent, Created(id, parent, spec, widths));
            Whole(s.(widgets := widgets, order := s.order + [id], next := id,
                     root := if parent == 0 then id else s.root))
  {
    hide Created, Added, ValidSpec, ValidTable, AddProblem, WidgetInside, AllInside, Tree, Pointers, Changes;
    var id := s.next + 1;
    var t := Created(id, parent, spec, widths);
    EmptyTree(s);
    TreeFacts(s);
    AddFits(s, parent, spec);
    CreatedFacts(id, parent, spec, widths);
    CreatedInside(id, parent, spec, widths);
    AddedKeepsPointers(s, parent, t);
    AddedKeepsTree(s.widgets, parent, t);
    AddedKeepsInside(s.widgets, parent, t);
  }

  // ---- new content --------------------------------------------------------------------------

  function TextSet(t: Widget, text: Text): Widget {
    t.(text := text, caret := |text|, scroll := 0, scrollY := 0)
  }

  function TextProblem(widgets: map<int, Widget>, id: int, text: Text): Option<Problem> {
    if id !in widgets then Some(NoWidget)
    else match widgets[id].kind
      case Label => if ValidText(text, MAX_TEXT_RUNES) then None else Some(Invalid)
      case Button => if ValidText(text, MAX_TEXT_RUNES) then None else Some(Invalid)
      case Checkbox => if ValidText(text, MAX_TEXT_RUNES) then None else Some(Invalid)
      case TextInput => if ValidText(text, MAX_TEXT_RUNES) then None else Some(Invalid)
      case PasswordInput => if ValidText(text, MAX_TEXT_RUNES) then None else Some(Invalid)
      case AreaInput => if ValidAreaText(text, MAX_AREA_RUNES) then None else Some(Invalid)
      case _ => Some(WrongKind)
  }

  lemma TextFits(widgets: map<int, Widget>, id: int, text: Text)
    requires TextProblem(widgets, id, text).None?
    ensures id in widgets && |text| <= widgets[id].Limit()
    ensures widgets[id].Scrolling() ==> widgets[id].kind == AreaInput
  {
  }

  /** A new text is shown from its beginning, with the caret at its end. */
  lemma TextSetShows(t: Widget, text: Text)
    ensures var r := TextSet(t, text);
            && r.text == text && r.caret == |text| && r.scroll == r.scrollY == 0
            && r == t.(text := r.text, caret := r.caret, scroll := r.scroll, scrollY := r.scrollY)
  {
  }

  lemma TextSetInside(t: Widget, text: Text)
    requires WidgetInside(t) && |text| <= t.Limit() && (t.Scrolling() ==> t.kind == AreaInput)
    ensures var r := TextSet(t, text); WidgetInside(r) && SameNodeFields(t, r) && r.listScroll == t.listScroll
  {
  }

  /** A widget whose items or rows were replaced keeps its selection only while it exists. */
  function Replaced(t: Widget): Widget {
    Clamped(t.(selected := if t.selected >= t.Count() then -1 else t.selected, highlight := -1))
  }

  lemma ReplacedKeeps(t: Widget)
    ensures var r := Replaced(t);
            && r == t.(selected := r.selected, highlight := -1, scrollX := r.scrollX, scrollY := r.scrollY)
            && (t.selected < t.Count() ==> r.selected == t.selected) && (t.selected >= t.Count() ==> r.selected == -1)
            && ScrollInside(r) && (ScrollInside(t) ==> r.scrollX == t.scrollX && r.scrollY == t.scrollY)
  {
    var kept := t.(selected := if t.selected >= t.Count() then -1 else t.selected, highlight := -1);
    assert ViewportOf(kept) == ViewportOf(t);
    hide ViewportOf;
  }

  lemma ReplacedInside(t: Widget)
    requires 0 <= t.caret <= |t.text| <= t.Limit() && -1 <= t.selected
    requires (t.kind != ListBox && t.kind != Select ==> t.items == []) && (t.kind != TableView ==> t.rows == [])
    ensures var r := Replaced(t); WidgetInside(r) && SameNode(t, r) == SameNode(t, t) && r.disabled == t.disabled
  {
    var r := Replaced(t);
  }

  /** Replacing entries keeps a widget's place. */
  lemma ReplacedNode(a: Widget, b: Widget)
    requires SameNode(a, a) && b == a.(items := b.items, rows := b.rows, widths := b.widths)
    requires forall i :: 0 <= i < |b.widths| ==> 0 <= b.widths[i]
    ensures SameNode(a, Replaced(b)) && Replaced(b).disabled == a.disabled
  {
  }

  /** Replacing what a widget holds closes its list if that is open. */
  lemma ReplaceKeepsWhole(s: Window, id: int, t: Widget)
    requires Whole(s) && id in s.widgets && SameNode(s.widgets[id], t) && WidgetInside(t)
    requires t.disabled == s.widgets[id].disabled
    ensures Whole(s.(widgets := s.widgets[id := t], popup := if s.popup == id then 0 else s.popup))
  {
    var closed := s.(popup := if s.popup == id then 0 else s.popup);
    WidgetFacts(s, id);
    FieldsKeepWhole(s, s.(popup := 0));
    hide Whole;
    UpdateKeepsWhole(closed, id, t);
  }

  lemma TableFacts(columns: seq<Text>, rows: seq<seq<Text>>)
    requires ValidTable(columns, rows)
    ensures forall row :: row in rows ==> |row| == |columns|
  {
  }

  function SelectProblem(widgets: map<int, Widget>, id: int, index: int): Option<Problem> {
    if id !in widgets || !widgets[id].Selecting() then Some(WrongKind)
    else if index < -1 || index >= widgets[id].Count() then Some(BadIndex)
    else None
  }

  /** A checked state or a selection set by the program. */
  lemma ValueSetInside(a: Widget, b: Widget)
    requires WidgetInside(a) && SameNode(a, a) && b == a.(checked := b.checked, selected := b.selected)
    requires -1 <= b.selected < b.Count()
    ensures var r := Revealed(b); WidgetInside(b) && WidgetInside(r) && SameNode(a, b) && SameNode(a, r)
    ensures var r := Revealed(b);
            r.disabled == a.disabled && r.listScroll == a.listScroll && ListScrollInside(a) == ListScrollInside(r)
    ensures b.disabled == a.disabled && ListScrollInside(a) == ListScrollInside(b)
  {
    assert ViewportOf(a) == ViewportOf(b);
  }

  // ---- enabling -----------------------------------------------------------------------------

  /** A widget enabled or disabled; a disabled one loses focus, press, drag and open list. */
  function EnabledSet(s: Window, id: int, enabled: bool): Window
    requires id in s.widgets
  {
    var t := s.widgets[id].(disabled := !enabled);
    if enabled then s.(widgets := s.widgets[id := t]) else
      s.(widgets := s.widgets[id := if s.popup == id then t.(highlight := -1) else t],
         focus := if s.focus == id then 0 else s.focus, pressed := if s.pressed == id then 0 else s.pressed,
         popup := if s.popup == id then 0 else s.popup, dragging := if s.dragging == id then 0 else s.dragging)
  }

  /** Disabling a widget takes away whatever pointed to it, and nothing else. */
  lemma DisablingReleases(s: Window, id: int)
    requires Whole(s) && id in s.widgets
    ensures id != 0
    ensures var r := EnabledSet(s, id, false);
            && id !in {r.focus, r.pressed, r.popup, r.dragging} && r.widgets[id].disabled
            && (s.focus != id ==> r.focus == s.focus) && (s.pressed != id ==> r.pressed == s.pressed)
            && (s.popup != id ==> r.popup == s.popup) && (s.dragging != id ==> r.dragging == s.dragging)
            && (s.popup == id ==> r.widgets[id].highlight == -1)
            && (s.focus == id ==> r.focus == 0) && (s.pressed == id ==> r.pressed == 0)
            && (s.popup == id ==> r.popup == 0) && (s.dragging == id ==> r.dragging == 0)
    ensures EnabledSet(s, id, true) == s.(widgets := s.widgets[id := s.widgets[id].(disabled := false)])
  {
    PointerFacts(s);
    hide Whole;
  }

  lemma EnabledInside(a: Widget, b: Widget)
    requires WidgetInside(a) && SameNode(a, a) && b == a.(disabled := b.disabled, highlight := b.highlight)
    requires b.highlight == a.highlight || b.highlight == -1
    ensures WidgetInside(b) && SameNode(a, b) && (ListScrollInside(a) ==> ListScrollInside(b))
  {
    assert ViewportOf(a) == ViewportOf(b);
  }

  lemma EnabledKeepsWhole(s: Window, id: int, enabled: bool)
    requires Whole(s) && id in s.widgets
    ensures Whole(EnabledSet(s, id, enabled))
  {
    var after := EnabledSet(s, id, enabled);
    var t := after.widgets[id];
    WidgetFacts(s, id);
    EnabledInside(s.widgets[id], t);
    FieldsKeepWhole(s, after.(widgets := s.widgets));
    hide Whole, WidgetInside;
    UpdateKeepsWhole(after.(widgets := s.widgets), id, t);
  }
}
