/** The open list, the selection, and what clicking a widget makes of the window. */
module WindowClicks {
  import opened Layout
  import opened Widgets
  import opened WindowLayout
  import opened WindowState

  function ListClosed(s: Window): Window {
    s.(popup := 0,
       widgets := if s.popup in s.widgets then s.widgets[s.popup := s.widgets[s.popup].(highlight := -1)]
                  else s.widgets)
  }

  lemma Unhighlighted(t: Widget)
    requires WidgetInside(t)
    ensures WidgetInside(t.(highlight := -1))
  {
    assert ViewportOf(t.(highlight := -1)) == ViewportOf(t);
  }

  lemma ClosingKeepsWhole(s: Window)
    requires Whole(s)
    ensures Whole(ListClosed(s))
    ensures SameStructure(s.widgets, ListClosed(s).widgets) && SameReadings(s.widgets, ListClosed(s).widgets)
  {
    hide Whole, WidgetInside;
    PointerFacts(s);
    FieldsKeepWhole(s, s.(popup := 0));
    QuietSelf(s.widgets);
    if s.popup in s.widgets {
      WidgetFacts(s, s.popup);
      var t := s.widgets[s.popup].(highlight := -1);
      Unhighlighted(s.widgets[s.popup]);
      UpdateKeepsWhole(s.(popup := 0), s.popup, t);
      UserUpdates(s.widgets, s.popup, t, s.changes, s.changes);
    }
  }

  lemma ClosedFields(s: Window)
    ensures ListClosed(s) == s.(popup := 0, widgets := ListClosed(s).widgets)
  {
  }

  lemma ClosedPlaces(s: Window)
    ensures SamePlaces(s.widgets, ListClosed(s).widgets)
  {
  }

  function Opened(t: Widget): (r: Widget)
    ensures r == t.(highlight := t.selected, listScroll := r.listScroll)
  {
    ListRevealed(ListClamped(t.(highlight := t.selected, listScroll := 0)))
  }

  lemma OpenedInside(t: Widget)
    requires WidgetInside(t)
    ensures WidgetInside(Opened(t)) && ListScrollInside(Opened(t)) && SameByUser(t, Opened(t))
    ensures SameNodeFields(t, Opened(t)) && ReadingOf(Opened(t)) == ReadingOf(t)
  {
    var o := Opened(t);
    assert ViewportOf(o) == ViewportOf(t);
  }

  function ListOpened(s: Window, id: int): Window
    requires id in s.widgets
  {
    var t := Opened(s.widgets[id]);
    s.(popup := id, widgets := s.widgets[id := t], list := ListBoxOf(t, s.height))
  }

  lemma OpenKeepsWhole(s: Window, id: int, list: Rect)
    requires Whole(s) && id in s.widgets && s.widgets[id].kind == Select && !s.widgets[id].disabled
    ensures var widgets := s.widgets[id := Opened(s.widgets[id])];
            && Whole(s.(widgets := widgets, popup := id, list := list))
            && SameStructure(s.widgets, widgets) && SameReadings(s.widgets, widgets)
  {
    hide Whole, WidgetInside, ListScrollInside, Opened, ReadingOf, SameNode;
    WidgetFacts(s, id);
    var t := Opened(s.widgets[id]);
    OpenedInside(s.widgets[id]);
    SameNodeOf(s.widgets[id], t);
    UpdateKeepsWhole(s, id, t);
    UserUpdates(s.widgets, id, t, [], []);
    FieldsKeepWhole(s.(widgets := s.widgets[id := t]), s.(widgets := s.widgets[id := t]).(popup := id, list := list));
  }

  // ---- selecting ----------------------------------------------------------------------------

  function UserSelected(t: Widget, index: int): Widget {
    if t.disabled || index < -1 || index >= t.Count() || t.selected == index then t else Revealed(t.(selected := index))
  }

  lemma UserSelectedInside(t: Widget, index: int)
    requires WidgetInside(t)
    ensures var r := UserSelected(t, index);
            && WidgetInside(r) && SameByUser(t, r) && SameNodeFields(t, r) && r.listScroll == t.listScroll
            && (t.Selecting() ==> (ReadingOf(r) == ReadingOf(t) <==> r == t))
  {
    if t != UserSelected(t, index) {
      var chosen := t.(selected := index);
      assert ViewportOf(chosen) == ViewportOf(t);
    }
  }

  /** A selection that is taken changes the widget, and one that is not leaves it. */
  lemma SelectionTaken(t: Widget, index: int)
    ensures UserSelected(t, index) ==
            if t.disabled || index < -1 || index >= t.Count() || t.selected == index then t
            else Revealed(t.(selected := index))
    ensures t.Selecting() && index != t.selected ==> ReadingOf(Revealed(t.(selected := index))) != ReadingOf(t)
    ensures UserSelected(t, index) == t <==> t.disabled || index < -1 || index >= t.Count() || t.selected == index
  {
    hide Clamped, Shown;
    assert Revealed(t.(selected := index)).selected == index;
  }

  /** The window after the user selected an entry. */
  function SelectedBy(s: Window, id: int, index: int): Window
    requires id in s.widgets
  {
    var t := UserSelected(s.widgets[id], index);
    s.(widgets := s.widgets[id := t], changes := if t == s.widgets[id] then s.changes else Noting(s.changes, id))
  }

  /** The window after a choice of the open list, or none, was taken. */
  function Picked(s: Window, choice: int): Window
    requires s.popup in s.widgets
  {
    ListClosed(if choice >= 0 then SelectedBy(s, s.popup, choice) else s)
  }

  lemma ToggleInside(t: Widget)
    requires WidgetInside(t)
    ensures var r := t.(checked := !t.checked); WidgetInside(r) && SameByUser(t, r)
  {
    assert ViewportOf(t.(checked := !t.checked)) == ViewportOf(t);
  }

  // ---- clicks -------------------------------------------------------------------------------

  /** The window after a widget was clicked. */
  function Activated(s: Window, id: int): Window
    requires id in s.widgets
  {
    var t := s.widgets[id];
    match t.kind
    case Checkbox => s.(widgets := s.widgets[id := t.(checked := !t.checked)], changes := Noting(s.changes, id))
    case Select => if s.popup == id then ListClosed(s) else if t.disabled then s else ListOpened(s, id)
    case _ => s
  }

  lemma ActivatedFocus(s: Window, id: int)
    requires Whole(s) && id in s.widgets && id == s.focus
    ensures s.widgets[id].kind == Select && s.popup != id ==> Activated(s, id) == ListOpened(s, id)
    ensures s.widgets[id].kind !in {Button, Checkbox, Select} ==> Activated(s, id) == s
  {
    WidgetFacts(s, id);
  }

  /** The choice whose row in the list holds y; -1 above the first row and below the last. */
  function ChoiceAt(t: Widget, list: Rect, y: int): (choice: int)
    requires ListScrollInside(t)
    ensures -1 <= choice < |t.items|
    ensures choice >= 0 ==>
              choice * ITEM_HEIGHT <= y - list.y - 1 + t.listScroll < (choice + 1) * ITEM_HEIGHT
    ensures choice == -1 <==> y < list.y + 1 || |t.items| * ITEM_HEIGHT <= y - list.y - 1 + t.listScroll
  {
    var choice := Truncated(y - list.y - 1 + t.listScroll, ITEM_HEIGHT);
    if y < list.y + 1 || choice >= |t.items| then -1 else choice
  }

  /** The Button a release at a point clicks: the one pressed, if the point is still on it. */
  function Clicked(widgets: map<int, Widget>, pressed: int, x: int, y: int): int {
    if pressed in widgets && widgets[pressed].kind == Button && LeafAt(widgets[pressed], x, y) then pressed else 0
  }

  /** The Button a release clicks. */
  function ClickedAt(s: Window, x: int, y: int): int {
    if s.dragging == 0 then Clicked(s.widgets, s.pressed, x, y) else 0
  }

  /** The window after a release: a drag ends; a choice of the open list is taken; or the
      pressed widget is clicked, exactly when the point is still on it. */
  function ReleasedAt(s: Window, x: int, y: int): Window
    requires s.popup in s.widgets ==> ListScrollInside(s.widgets[s.popup])
  {
    var r := s.(pressed := 0);
    if s.dragging != 0 then r.(dragging := 0)
    else if s.pressed != 0 && s.pressed == s.popup && s.popup in s.widgets then
      var choice := if Contains(s.list, x, y) then ChoiceAt(s.widgets[s.popup], s.list, y) else -1;
      if choice >= 0 then Picked(r, choice) else r
    else if s.pressed in s.widgets && LeafAt(s.widgets[s.pressed], x, y) then Activated(r, s.pressed)
    else r
  }

  /** A press and release in the open list selects the choice whose row, with the list's
      scroll, is under the pointer, and closes the list. */
  lemma ReleaseSelects(s: Window, x: int, y: int, k: nat)
    requires s.popup in s.widgets && s.pressed == s.popup != 0 && s.dragging == 0
    requires var t := s.widgets[s.popup]; ListScrollInside(t) && t.kind == Select && !t.disabled && k < |t.items|
    requires Contains(s.list, x, y) && y > s.list.y
    requires k * ITEM_HEIGHT <= y - s.list.y - 1 + s.widgets[s.popup].listScroll < (k + 1) * ITEM_HEIGHT
    ensures var r, t := ReleasedAt(s, x, y), s.widgets[s.popup];
            && r.popup == 0 && r.pressed == 0 && r.widgets == s.widgets[s.popup := t.(selected := k, highlight := -1)]
            && r.changes == (if k == t.selected then s.changes else Noting(s.changes, s.popup))
  {
    var t := s.widgets[s.popup];
    assert ChoiceAt(t, s.list, y) == k;
    hide ChoiceAt;
    assert s.widgets[s.popup := t] == s.widgets;
  }

  /** Elsewhere such a release takes nothing and leaves the list open: outside the list,
      above its first row, or behind its last. */
  lemma ReleaseSelectsNothing(s: Window, x: int, y: int)
    requires s.popup in s.widgets && s.pressed == s.popup != 0 && s.dragging == 0
    requires ListScrollInside(s.widgets[s.popup])
    requires var t := s.widgets[s.popup];
             || !Contains(s.list, x, y) || y <= s.list.y
             || |t.items| * ITEM_HEIGHT <= y - s.list.y - 1 + t.listScroll
    ensures ReleasedAt(s, x, y) == s.(pressed := 0)
  {
    if Contains(s.list, x, y) {
      assert ChoiceAt(s.widgets[s.popup], s.list, y) == -1;
    }
    hide ChoiceAt;
  }

  /** Closing a list touches no widget but its Select, and of that the highlight only. */
  lemma ClosingTouches(s: Window, k: int)
    requires k in s.widgets
    ensures var r := ListClosed(s);
            && r.popup == 0 && r.widgets.Keys == s.widgets.Keys
            && r.widgets[k] == s.widgets[k].(highlight := if k == s.popup then -1 else s.widgets[k].highlight)
  {
  }

  /** Opening a list highlights the selection and scrolls to it; without one the list shows
      its beginning. */
  lemma OpeningShows(s: Window, id: int, k: int)
    requires id in s.widgets && k in s.widgets && -1 <= s.widgets[id].selected < |s.widgets[id].items|
    ensures var r, t := ListOpened(s, id), s.widgets[id];
            var o, visible := r.widgets[id], Min(|t.items|, 8);
            && r == s.(popup := id, widgets := s.widgets[id := o], list := ListBoxOf(t, s.height))
            && o == t.(highlight := t.selected, listScroll := o.listScroll)
            && (t.selected < 0 ==> o.listScroll == 0)
            && (t.selected >= 0 ==>
                  o.listScroll <= t.selected * 24 && (t.selected + 1) * 24 <= o.listScroll + visible * 24)
  {
    var t := s.widgets[id];
    var opening := ListClamped(t.(highlight := t.selected, listScroll := 0));
    if t.selected >= 0 {
      HighlightShown(opening);
    }
    SameListBox(t.(highlight := t.selected), Opened(t), s.height);
    hide ListRevealed;
  }

  /** A click toggles and queues a Checkbox, opens or closes an enabled Select, and leaves the
      window to the program for every other widget. */
  lemma ActivatedBy(s: Window, id: int)
    requires id in s.widgets
    ensures var r, t := Activated(s, id), s.widgets[id];
            && (t.kind == Checkbox ==> r.widgets == s.widgets[id := t.(checked := !t.checked)] && id in r.changes
                                       && r == s.(widgets := r.widgets, changes := r.changes)
                                       && (id in s.changes ==> r.changes == s.changes)
                                       && (id !in s.changes ==> r.changes == s.changes + [id]))
            && (t.kind == Select && s.popup == id ==> r == ListClosed(s))
            && (t.kind == Select && s.popup != id ==> r == if t.disabled then s else ListOpened(s, id))
            && (t.kind != Checkbox && t.kind != Select ==> r == s)
  {
    hide ListClosed, ListOpened;
  }

  /** An entry the user selects is selected and shown, and queued if it was not selected. */
  lemma SelectedByUser(s: Window, id: int, index: int)
    requires id in s.widgets && !s.widgets[id].disabled && 0 <= index < s.widgets[id].Count()
    ensures var r, t := SelectedBy(s, id, index), s.widgets[id];
            && r == s.(widgets := s.widgets[id := r.widgets[id]], changes := r.changes)
            && r.widgets[id] ==
               t.(selected := index, scrollX := r.widgets[id].scrollX, scrollY := r.widgets[id].scrollY)
            && (index == t.selected ==> r.widgets[id] == t && r.changes == s.changes)
            && (index != t.selected ==> r.changes == if id in s.changes then s.changes else s.changes + [id])
  {
    hide Revealed;
  }

  /** The release of a drag ends it and clicks nothing. */
  lemma ReleaseEndsDrag(s: Window, x: int, y: int)
    requires s.dragging != 0 && (s.popup in s.widgets ==> ListScrollInside(s.widgets[s.popup]))
    ensures ReleasedAt(s, x, y) == s.(pressed := 0, dragging := 0) && ClickedAt(s, x, y) == 0
  {
  }

  /** A release clicks the pressed leaf exactly when the pointer is still on it. */
  lemma ReleaseClicks(s: Window, x: int, y: int)
    requires s.dragging == 0 && s.pressed in s.widgets && !s.widgets[s.pressed].Container() && s.pressed != s.popup
    requires s.popup in s.widgets ==> ListScrollInside(s.widgets[s.popup])
    ensures var t, r := s.widgets[s.pressed], s.(pressed := 0);
            if t.x <= x < t.x + t.w && t.y <= y < t.y + t.h then
              ReleasedAt(s, x, y) == Activated(r, s.pressed)
              && ClickedAt(s, x, y) == if t.kind == Button then s.pressed else 0
            else
              ReleasedAt(s, x, y) == r && ClickedAt(s, x, y) == 0
  {
    hide Activated;
  }
}
