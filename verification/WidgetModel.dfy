/** Everything that changes a window: the program's requests and the user's
    mouse and keyboard. */
module WidgetModel {
  import opened Layout
  import opened LayoutPasses
  import opened Options
  import opened TextArea
  import opened Widgets
  import opened WindowState
  import opened WindowLayout
  import opened WindowClicks
  import opened WindowPointer
  import opened WindowKeys
  import opened WindowRequests

  class Model {
    const measure: Text -> nat
    const scale: real
    var width: int
    var height: int
    var resizable: bool
    var widgets: map<int, Widget>
    var order: seq<int>
    var root: int
    var next: int
    var focus: int
    var pressed: int
    var popup: int
    var list: Rect
    var dragging: int
    var grabY: int
    var changes: seq<int>

    ghost function Now(): Window
      reads this
    {
      Window(width, height, resizable, widgets, order, root, next,
             focus, pressed, popup, list, dragging, grabY, changes)
    }

    ghost predicate Valid()
      reads this
    {
      Whole(Now())
    }

    /** Everything the layout depends on. */
    ghost function CurrentScene(): Scene
      reads this
    {
      Scene(widgets, measure, width, height)
    }

    /** The window as a layout leaves it. */
    ghost function Placed(): Window
      requires Valid()
      reads this
    {
      TreeFacts(Now());
      PlacedWindow(Now(), measure)
    }

    constructor (width: int, height: int, measure: Text -> nat)
      requires 1 <= width <= MAX_DIMENSION && 1 <= height <= MAX_DIMENSION
      ensures Valid() && widgets == map[] && changes == []
    {
      this.width, this.height, this.measure := width, height, measure;
      resizable, scale := false, 1.0;
      widgets, order, root, next := map[], [], 0, 0;
      focus, pressed, popup, dragging, grabY, list := 0, 0, 0, 0, 0, Rect(0, 0, 0, 0);
      changes := [];
    }

    // ---- layout --------------------------------------------------------------

    /** The first pass: natural sizes, children before their Container. */
    method MeasureWidget(id: int, ghost s: Scene) returns (w: int, h: int)
      requires Tree(s.widgets) && id in s.widgets && s.measure == measure && SameShapes(s.widgets, widgets)
      modifies this`widgets
      ensures SameShapes(s.widgets, widgets) && widgets.Keys == s.widgets.Keys
      ensures PassedBelow(s.widgets, MeasurePass(s), old(widgets), widgets, id)
      ensures w == NatSize(s, id).w && h == NatSize(s, id).h && widgets[id].grows == NatSize(s, id).grows
      decreases |s.widgets| - id
    {
      hide PassedBelow, PassedChildren, NatSize, SameShapes, Tree;
      ShapeOf(s.widgets, widgets, id);
      var target := widgets[id];
      var size;
      if target.Container() {
        size := MeasureContainer(id, s);
      } else {
        size := MeasureLeaf(target);
        LeafPassed(s, MeasurePass(s), widgets, id);
        NaturalOfShape(s.widgets[id], target, measure);
      }
      ghost var measured := widgets;
      widgets := widgets[id := widgets[id].(natW := size.w, natH := size.h, grows := size.grows)];
      w, h := size.w, size.h;
      PassedWhole(s.widgets, MeasurePass(s), old(widgets), measured, widgets, id);
      ShapesUpdated(s.widgets, measured, id, widgets[id]);
    }

    /** Computes `Natural` for every kind but the Containers. */
    method MeasureLeaf(target: Widget) returns (size: Size)
      requires !target.Container()
      ensures size == Natural(target, measure, [])
    {
      size := Size(0, 0, target.Scrolling());
      match target.kind {
        case Label => size := Size(measure(target.text), ROW_HEIGHT, false);
        case Button =>
          size := Size(Max(measure(target.text) + 2 * BUTTON_PADDING, MIN_BUTTON_WIDTH), ROW_HEIGHT, false);
        case TextInput => size := Size(TEXT_INPUT_WIDTH, ROW_HEIGHT, false);
        case PasswordInput => size := Size(TEXT_INPUT_WIDTH, ROW_HEIGHT, false);
        case Checkbox => size := Size(CHECKBOX_BOX + CHECKBOX_GAP + measure(target.text), ROW_HEIGHT, false);
        case AreaInput =>
          size := Size(TEXT_AREA_WIDTH, TEXT_AREA_LINES * LINE_HEIGHT + 2 * TEXT_INPUT_INSET, true);
        case ListBox => size := Size(LIST_BOX_WIDTH, LIST_BOX_ROWS * ITEM_HEIGHT + 2, true);
        case Select =>
          var widest := MeasureChoices(target);
          size := Size(Min(Max(widest + 2 * ITEM_INSET + SELECT_ARROW, SELECT_MIN_WIDTH), SELECT_MAX_WIDTH),
                       ROW_HEIGHT, false);
        case TableView =>
          var total := TotalWidth(target.widths);
          size := Size(Min(Max(total + 2 + SCROLLBAR, TABLE_MIN_WIDTH), TABLE_MAX_WIDTH),
                       HEADER_HEIGHT + TABLE_ROWS * ITEM_HEIGHT + 2, true);
        case _ =>
      }
    }

    method MeasureContainer(id: int, ghost s: Scene) returns (size: Size)
      requires Tree(s.widgets) && id in s.widgets && s.measure == measure && SameShapes(s.widgets, widgets)
      requires s.widgets[id].Container()
      modifies this`widgets
      ensures SameShapes(s.widgets, widgets) && widgets.Keys == s.widgets.Keys
      ensures PassedChildren(s.widgets, MeasurePass(s), old(widgets), widgets, id, |s.widgets[id].children|)
      ensures size == NatSize(s, id)
      decreases |s.widgets| - id, 0
    {
      hide PassedBelow, PassedChildren, NatSize, SameShapes, Tree;
      ShapeOf(s.widgets, widgets, id);
      var target := widgets[id];
      ghost var sizes := ChildSizes(s, id);
      var width, height, grows := 0, 0, false;
      NothingPassed(s.widgets, MeasurePass(s), widgets, id);
      for index := 0 to |target.children|
        invariant SameShapes(s.widgets, widgets) && widgets.Keys == s.widgets.Keys
        invariant PassedChildren(s.widgets, MeasurePass(s), old(widgets), widgets, id, index)
        invariant grows == AnyGrows(sizes[..index])
        invariant target.kind == Column ==>
          width == Widest(Column, sizes[..index]) && height == Extent(Column, sizes[..index], target.spacing)
        invariant target.kind == Row ==>
          width == Extent(Row, sizes[..index], target.spacing) && height == Widest(Row, sizes[..index])
      {
        var child := target.children[index];
        ghost var before := widgets;
        ChildIsYounger(s.widgets, id, index);
        var childWidth, childHeight := MeasureWidget(child, s);
        PassedNext(s.widgets, MeasurePass(s), old(widgets), before, widgets, id, index);
        if widgets[child].grows {
          grows := true;
        }
        assert sizes[..index + 1] == sizes[..index] + [sizes[index]];
        var gap := if index > 0 then target.spacing else 0;
        if target.kind == Column {
          width, height := Max(width, childWidth), height + gap + childHeight;
        } else {
          width, height := width + gap + childWidth, Max(height, childHeight);
        }
      }
      assert sizes[..|sizes|] == sizes;
      size := Size(width + 2 * target.padding, height + 2 * target.padding, grows);
      NatSizeOfContainer(s, id);
    }

    /** The second pass: a widget takes its rectangle and hands out its children's. */
    method Place(id: int, x: int, y: int, width: int, height: int, ghost s: Scene)
      requires Tree(s.widgets) && id in s.widgets
      requires SameShapes(s.widgets, widgets) && widgets.Keys == s.widgets.Keys && AllMeasured(s, widgets)
      requires RectOf(s, id) == Rect(x, y, width, height)
      modifies this`widgets
      ensures SameShapes(s.widgets, widgets) && widgets.Keys == s.widgets.Keys && AllMeasured(s, widgets)
      ensures PassedBelow(s.widgets, PlacePass(s), old(widgets), widgets, id)
      decreases |s.widgets| - id
    {
      hide PassedBelow, PassedChildren, NatSize, SameShapes, Tree, RectOf, AllMeasured;
      ShapeOf(s.widgets, widgets, id);
      var target := widgets[id];
      var placed := target.(x := x, y := y, w := width, h := height);
      if !target.Container() {
        LeafPassed(s, PlacePass(s), widgets, id);
        widgets := widgets[id := Clamped(placed)];
        PassedWhole(s.widgets, PlacePass(s), old(widgets), old(widgets), widgets, id);
      } else {
        widgets := widgets[id := placed];
        ghost var begun := widgets;
        PlaceUpdated(s, old(widgets), id, widgets[id]);
        PlaceChildren(id, Rect(x, y, width, height), s);
        PassedAround(s.widgets, PlacePass(s), old(widgets), begun, widgets, id);
      }
      PlaceKeeps(s, old(widgets), widgets, id);
    }

    method PlaceChildren(id: int, r: Rect, ghost s: Scene)
      requires Tree(s.widgets) && id in s.widgets && s.widgets[id].Container() && r == RectOf(s, id)
      requires SameShapes(s.widgets, widgets) && widgets.Keys == s.widgets.Keys && AllMeasured(s, widgets)
      modifies this`widgets
      ensures SameShapes(s.widgets, widgets) && widgets.Keys == s.widgets.Keys && AllMeasured(s, widgets)
      ensures PassedChildren(s.widgets, PlacePass(s), old(widgets), widgets, id, |s.widgets[id].children|)
      decreases |s.widgets| - id, 0
    {
      hide PassedBelow, PassedChildren, NatSize, SameShapes, Tree, RectOf, AllMeasured, Slot;
      ShapeOf(s.widgets, widgets, id);
      var target := widgets[id];
      ghost var sizes := ChildSizes(s, id);
      var innerW, innerH := r.w - 2 * target.padding, r.h - 2 * target.padding;
      var growing, used := MeasureChildren(id, s);
      var extra := Max((if target.kind == Row then innerW else innerH) - used, 0);
      var cursorX, cursorY := r.x + target.padding, r.y + target.padding;
      var growingIndex := 0;
      NothingPassed(s.widgets, PlacePass(s), widgets, id);
      for index := 0 to |target.children|
        invariant SameShapes(s.widgets, widgets) && widgets.Keys == s.widgets.Keys && AllMeasured(s, widgets)
        invariant PassedChildren(s.widgets, PlacePass(s), old(widgets), widgets, id, index)
        invariant growingIndex == GrowingBefore(sizes, index)
        invariant cursorX == r.x + target.padding +
            if target.kind == Column then 0 else MainStart(target, r, sizes, index)
        invariant cursorY == r.y + target.padding +
            if target.kind == Column then MainStart(target, r, sizes, index) else 0
      {
        var child := target.children[index];
        ghost var before := widgets;
        ChildIsYounger(s.widgets, id, index);
        MeasuredSize(s, widgets, child);
        ChildSlot(s, id, index);
        SlotAsPlaced(s.widgets[id], target, r, sizes, index);
        var placed := widgets[child];
        var childW, childH := placed.natW, placed.natH;
        if placed.grows {
          var share := Share(extra, growing, growingIndex);
          if target.kind == Column {
            childW, childH := Max(childW, innerW), childH + share;
          } else {
            childW, childH := childW + share, Max(childH, innerH);
          }
          growingIndex := growingIndex + 1;
        }
        if target.kind == Column {
          Place(child, cursorX, cursorY, childW, childH, s);
          cursorY := cursorY + childH + target.spacing;
        } else {
          Place(child, cursorX, cursorY + Truncated(innerH - childH, 2), childW, childH, s);
          cursorX := cursorX + childW + target.spacing;
        }
        PassedNext(s.widgets, PlacePass(s), old(widgets), before, widgets, id, index);
      }
    }

    /** How many children grow, and how much of the main axis their natural sizes use. */
    method MeasureChildren(id: int, ghost s: Scene) returns (growing: nat, used: int)
      requires Tree(s.widgets) && id in s.widgets && s.widgets[id].Container()
      requires SameShapes(s.widgets, widgets) && widgets.Keys == s.widgets.Keys && AllMeasured(s, widgets)
      ensures growing == GrowingBefore(ChildSizes(s, id), |ChildSizes(s, id)|)
      ensures used == Extent(s.widgets[id].kind, ChildSizes(s, id), s.widgets[id].spacing)
    {
      hide NatSize, SameShapes, Tree, RectOf, AllMeasured, Slot;
      ShapeOf(s.widgets, widgets, id);
      var target := widgets[id];
      ghost var sizes := ChildSizes(s, id);
      growing, used := 0, 0;
      for index := 0 to |target.children|
        invariant growing == GrowingBefore(sizes, index)
        invariant used == Extent(target.kind, sizes[..index], target.spacing)
      {
        ChildIsYounger(s.widgets, id, index);
        MeasuredSize(s, widgets, target.children[index]);
        assert sizes[..index + 1] == sizes[..index] + [sizes[index]];
        var placed := widgets[target.children[index]];
        if placed.grows {
          growing := growing + 1;
        }
        if index > 0 {
          used := used + target.spacing;
        }
        used := used + (if target.kind == Column then placed.natH else placed.natW);
      }
      assert sizes[..|sizes|] == sizes;
    }

    method MeasureChoices(target: Widget) returns (widest: int)
      ensures widest == WidestText(measure, target.placeholder, target.items[..Min(|target.items|, MEASURED_ROWS)])
    {
      var n := Min(|target.items|, MEASURED_ROWS);
      widest := measure(target.placeholder);
      for i := 0 to n
        invariant widest == WidestText(measure, target.placeholder, target.items[..i])
      {
        assert target.items[..i + 1][..i] == target.items[..i];
        widest := Max(widest, measure(target.items[i]));
      }
    }

    method TotalWidth(widths: seq<int>) returns (total: int)
      ensures total == SumOf(widths)
    {
      total := 0;
      for i := 0 to |widths|
        invariant total == SumOf(widths[..i])
      {
        assert widths[..i + 1][..i] == widths[..i];
        total := total + widths[i];
      }
      assert widths[..|widths|] == widths;
    }

    /** Lays the whole window out. */
    method Layout()
      requires Valid()
      modifies this`widgets, this`list
      ensures Valid()
      ensures SameStructure(old(widgets), widgets) && SameReadings(old(widgets), widgets)
      ensures Now() == old(Placed()) && AllLaidOut(old(CurrentScene()), widgets)
    {
      hide Tree, AllInside, AllLaidOut, SameStructure, SameReadings, Pointers, Changes, LaidWidgets;
      ghost var s := CurrentScene();
      PointerFacts(Now());
      if root == 0 {
        EmptyWindow(s, focus, pressed, popup, dragging);
        LaidWidgetsAre(s, widgets);
        return;
      }
      RunPasses(s);
      LaidWidgetsAre(s, widgets);
      LayoutKeeps(s, widgets);
      hide Numbered;
      OpenListStays(s.widgets, widgets, focus, pressed, popup, dragging);
      StructureKeepsPointers(s.widgets, widgets, focus, pressed, popup, dragging);
      StructureKeepsIds(s.widgets, widgets, order, root, next, changes);
      if popup != 0 {
        ghost var before := widgets;
        assert ListClamped(widgets[popup]) == widgets[popup];
        PlacePopup(popup);
        assert widgets == before;
      }
    }

    method RunPasses(ghost s: Scene)
      requires s == CurrentScene() && Tree(widgets) && |widgets| > 0 && root == 1
      modifies this`widgets
      ensures AllLaidOut(s, widgets)
    {
      hide Tree, NatSize, RectOf, PassedBelow, SameShapes, AllMeasured;
      RootFacts(s);
      SameShapesSelf(widgets);
      var w, h := MeasureWidget(root, s);
      ghost var measured := widgets;
      WholePass(s.widgets, MeasurePass(s), s.widgets, measured);
      PassesMeasure(s, s.widgets, measured);
      if widgets[root].grows {
        w, h := Max(w, width), Max(h, height);
      }
      Place(root, 0, 0, w, h, s);
      WholePass(s.widgets, PlacePass(s), measured, widgets);
    }

    /** `list` becomes the `ListBoxOf` the open Select, whose own list scroll is clamped to it. */
    method PlacePopup(id: int)
      requires id in widgets
      modifies this`widgets, this`list
      ensures widgets == old(widgets)[id := ListClamped(old(widgets)[id])]
      ensures list == ListBoxOf(old(widgets)[id], height)
    {
      var target := widgets[id];
      var boxHeight := VisibleChoices(target) * ITEM_HEIGHT + 2;
      var y := target.y + target.h;
      if y + boxHeight > height && target.y - boxHeight >= 0 {
        y := target.y - boxHeight;
      }
      list := Rect(target.x, y, target.w, boxHeight);
      widgets := widgets[id := ListClamped(target)];
    }

    // ---- the user's operations --------------------------------------------------

    method ClosePopup()
      requires Valid()
      modifies this`widgets, this`popup
      ensures Valid() && Now() == ListClosed(old(Now()))
      ensures SameStructure(old(widgets), widgets) && SameReadings(old(widgets), widgets)
    {
      hide Whole, SameStructure, SameReadings;
      ClosingKeepsWhole(Now());
      if popup in widgets {
        widgets := widgets[popup := widgets[popup].(highlight := -1)];
      }
      popup := 0;
    }

    method NoteChange(id: int)
      modifies this`changes
      ensures changes == Noting(old(changes), id)
    {
      for i := 0 to |changes|
        invariant changes == old(changes) && id !in changes[..i]
      {
        if changes[i] == id {
          return;
        }
      }
      assert changes[..|changes|] == changes;
      changes := changes + [id];
    }

    /** Hands the queue over and leaves it empty. */
    method TakeChanges() returns (taken: seq<int>)
      requires Valid()
      modifies this`changes
      ensures Valid() && taken == old(changes) && changes == []
    {
      hide Tree, AllInside, Pointers;
      taken := changes;
      changes := [];
    }

    /** `SelectedBy` on the window: an index out of range or already selected changes nothing, any other is
        queued. */
    method UserSelect(id: int, index: int)
      requires Valid() && id in widgets && widgets[id].Selecting()
      modifies this`widgets, this`changes
      ensures Valid() && UserStep(old(widgets), widgets, old(changes), changes)
      ensures Now() == SelectedBy(old(Now()), id, index)
    {
      hide Whole, WidgetInside, UserStep, SameNode, ReadingOf, Revealed, ListScrollInside, UserSelected;
      WidgetFacts(Now(), id);
      UserSelectedInside(widgets[id], index);
      SelectionTaken(widgets[id], index);
      var target := widgets[id];
      if target.disabled || index < -1 || index >= target.Count() || target.selected == index {
        UserUpdates(widgets, id, target, changes, changes);
        assert widgets == widgets[id := target];
        return;
      }
      SameNodeOf(target, Revealed(target.(selected := index)));
      Replace(id, Revealed(target.(selected := index)), true);
    }

    method OpenPopup(id: int)
      requires Valid() && id in widgets && widgets[id].kind == Select
      modifies this`widgets, this`popup, this`list
      ensures Valid() && SameStructure(old(widgets), widgets) && SameReadings(old(widgets), widgets)
      ensures Now() == if old(widgets)[id].disabled then old(Now()) else ListOpened(old(Now()), id)
    {
      if widgets[id].disabled {
        QuietSelf(widgets);
      } else {
        OpenList(id);
      }
    }

    method OpenList(id: int)
      requires Valid() && id in widgets && widgets[id].kind == Select && !widgets[id].disabled
      modifies this`widgets, this`popup, this`list
      ensures Valid() && SameStructure(old(widgets), widgets) && SameReadings(old(widgets), widgets)
      ensures Now() == ListOpened(old(Now()), id)
    {
      hide Whole, SameStructure, SameReadings, ListBoxOf, ListClamped, ListRevealed;
      ghost var s := Now();
      popup := id;
      var opening := widgets[id].(highlight := widgets[id].selected, listScroll := 0);
      widgets := widgets[id := opening];
      PlacePopup(id);
      widgets := widgets[id := ListRevealed(widgets[id])];
      SameListBox(opening, widgets[id], height);
      OpenKeepsWhole(s, id, list);
      assert widgets == s.widgets[id := Opened(s.widgets[id])];
    }

    /** `Activated` on the window; the id is answered for a Button only. */
    method Activate(id: int) returns (clicked: int)
      requires Valid() && id in widgets
      modifies this`widgets, this`popup, this`list, this`changes
      ensures Valid() && UserStep(old(widgets), widgets, old(changes), changes)
      ensures Now() == Activated(old(Now()), id) && clicked == if old(widgets)[id].kind == Button then id else 0
      ensures OthersRead(old(widgets), widgets, id)
    {
      hide Whole, WidgetInside, UserStep, SameStructure, SameReadings, Tree, OthersRead, ListOpened, ListClosed;
      QuietSelf(widgets);
      OthersReadQuiet(widgets, widgets, widgets, id);
      QuietStep(widgets, widgets, changes);
      clicked := 0;
      if widgets[id].kind == Button {
        clicked := id;
      } else if widgets[id].kind == Checkbox {
        ToggleBox(id);
        OthersReadUpdate(old(widgets), old(widgets), id, widgets[id]);
      } else if widgets[id].kind == Select {
        if popup == id {
          ClosePopup();
        } else {
          OpenPopup(id);
        }
        QuietStep(old(widgets), widgets, changes);
        OthersReadQuiet(old(widgets), old(widgets), widgets, id);
      }
    }

    method ToggleBox(id: int)
      requires Valid() && id in widgets && widgets[id].kind == Checkbox
      modifies this`widgets, this`changes
      ensures Valid() && UserStep(old(widgets), widgets, old(changes), changes)
      ensures widgets == old(widgets)[id := old(widgets)[id].(checked := !old(widgets)[id].checked)]
      ensures changes == Noting(old(changes), id)
    {
      WidgetFacts(Now(), id);
      ToggleInside(widgets[id]);
      var target := widgets[id].(checked := !widgets[id].checked);
      SameNodeOf(widgets[id], target);
      hide Whole, WidgetInside, UserStep, SameNode, ListScrollInside;
      Replace(id, target, true);
    }

    /** Zero exactly when no laid-out leaf holds the point. */
    method Hit(x: int, y: int) returns (id: int)
      requires Valid()
      ensures id != 0 ==> id in widgets && LeafAt(widgets[id], x, y)
      ensures forall k :: k in widgets && LeafAt(widgets[k], x, y) ==> k <= id
      ensures id == 0 ==> forall k :: k in widgets ==> !LeafAt(widgets[k], x, y)
    {
      hide Tree, Pointers, AllInside, Changes;
      OrderFacts(Now());
      var index := |order| - 1;
      while index >= 0
        invariant -1 <= index < |order|
        invariant forall k :: k in widgets && LeafAt(widgets[k], x, y) ==> k <= index + 1
      {
        if LeafAt(widgets[order[index]], x, y) {
          return order[index];
        }
        index := index - 1;
      }
      id := 0;
    }

    /** Taken exactly when the point is on a visible bar; the new scroll is `Jumped`, and `grabY` is the
        distance that a drag keeps. */
    method PressScrollbar(id: int, x: int, y: int) returns (taken: bool)
      requires Valid() && id in widgets && !widgets[id].disabled
      modifies this`widgets, this`dragging, this`grabY
      ensures Valid() && SameStructure(old(widgets), widgets) && SameReadings(old(widgets), widgets)
      ensures SamePlaces(old(widgets), widgets) && ViewportOf(old(widgets)[id]).h >= 0
      ensures taken == OnScrollbar(old(widgets)[id], x, y)
      ensures !taken ==> Now() == old(Now())
      ensures taken ==>
        var t := old(widgets)[id];
        var held := if OnThumb(t, y) then t else Jumped(t, y);
        dragging == id && widgets == old(widgets)[id := held] && grabY == y - Thumb(ViewportOf(t), held.scrollY).0
        && 0 <= grabY < Thumb(ViewportOf(t), held.scrollY).1
    {
      hide Whole, Thumb, SameStructure, SameReadings, SamePlaces, ScrollTo, Truncated, ViewportOf;
      var target := widgets[id];
      QuietSelf(widgets);
      SamePlacesSelf(widgets);
      ViewportHigh(target);
      if !target.Scrolling() {
        return false;
      }
      var v := ViewportOf(target);
      if !v.vertical || x < v.x + v.w || x >= v.x + v.w + SCROLLBAR || y < v.y || y >= v.y + v.h {
        return false;
      }
      taken := true;
      PressHoldsThumb(target, x, y);
      var (top, size) := Thumb(v, target.scrollY);
      if y < top || y >= top + size {
        JumpThumb(id, y);
        StructureAt(old(widgets), widgets, id);
        top := Thumb(v, widgets[id].scrollY).0;
      } else {
        assert widgets == widgets[id := target];
      }
      FieldsKeepWhole(Now(), Now().(dragging := id, grabY := y - top));
      dragging, grabY := id, y - top;
    }

    /** Jumps the thumb so that its middle is at the pointer. */
    method JumpThumb(id: int, y: int)
      requires Valid() && id in widgets && widgets[id].Scrolling()
      modifies this`widgets
      ensures Valid() && SameStructure(old(widgets), widgets) && SameReadings(old(widgets), widgets)
      ensures SamePlaces(old(widgets), widgets)
      ensures ViewportOf(old(widgets)[id]).h >= 0 && widgets == old(widgets)[id := Jumped(old(widgets)[id], y)]
    {
      hide Whole, Thumb, SameStructure, SameReadings, SamePlaces, ScrollTo, Truncated, ViewportOf;
      var target := widgets[id];
      ViewportHigh(target);
      var v := ViewportOf(target);
      var size := Thumb(v, target.scrollY).1;
      var jump := Truncated((y - v.y - Truncated(size, 2)) * (v.contentH - v.h), Max(v.h - size, 1));
      ScrollKeepsWhole(Now(), id, jump);
      widgets := widgets[id := ScrollTo(target, jump)];
    }

    /** Scrolls the dragged widget to `Dragged` and no other. */
    method DragScrollbar(id: int, y: int)
      requires Valid() && id in widgets && widgets[id].Scrolling()
      modifies this`widgets
      ensures Valid() && SameStructure(old(widgets), widgets) && SameReadings(old(widgets), widgets)
      ensures ViewportOf(old(widgets)[id]).h >= 0 && widgets == old(widgets)[id := Dragged(old(widgets)[id], grabY, y)]
    {
      hide Whole, Thumb, SameStructure, SameReadings, ScrollTo, Truncated, ViewportOf;
      var target := widgets[id];
      ViewportHigh(target);
      var v := ViewportOf(target);
      var (_, size) := Thumb(v, target.scrollY);
      var scrollY := Truncated((y - grabY - v.y) * (v.contentH - v.h), Max(v.h - size, 1));
      ScrollKeepsWhole(Now(), id, scrollY);
      widgets := widgets[id := ScrollTo(target, scrollY)];
    }

    method ColumnUnder(line: Text, want: int) returns (column: int)
      ensures ColumnAt(measure, line, want, column)
    {
      column := 0;
      while column < |line|
        invariant 0 <= column <= |line|
        invariant forall j :: 1 <= j <= column ==> PrefixWidth(measure, line, j) <= want
      {
        var after := PrefixWidth(measure, line, column + 1);
        if after > want {
          var before := PrefixWidth(measure, line, column);
          ghost var crossing := column;
          if want - before > after - want {
            column := column + 1;
          }
          assert Crossing(measure, line, want, crossing) && column == NearerEnd(measure, line, want, crossing);
          return;
        }
        column := column + 1;
      }
      assert Crossing(measure, line, want, column) && column == NearerEnd(measure, line, want, column);
    }

    /** The caret ends in the clicked line, at whichever gap between characters is nearer. */
    method PlaceAreaCaret(id: int, x: int, y: int)
      requires Valid() && id in widgets && widgets[id].kind == AreaInput
      modifies this`widgets
      ensures Valid() && SameStructure(old(widgets), widgets) && SameReadings(old(widgets), widgets)
      ensures var t := old(widgets)[id];
              var caret := widgets[id].caret;
              && widgets == old(widgets)[id := t.(caret := caret)] && 0 <= caret <= |t.text|
              && ClickedPosition(measure, scale, t, x, y, PositionOf(t.text, caret))
    {
      hide Whole, SameStructure, SameReadings, Lines, LineStart, ViewportOf, ColumnAt, OffsetOf, PositionOf;
      var target := widgets[id];
      var v := ViewportOf(target);
      var lines := AreaLines(target.text);
      var line := Clamp(Truncated(y - v.y + target.scrollY, LINE_HEIGHT), 0, |lines| - 1);
      var want := x - v.x + DrawnScroll(target.scroll, scale);
      var column := ColumnUnder(lines[line], want);
      var caret := AreaOffset(target.text, line, column);
      PositionOfOffset(target.text, line, column);
      ColumnInLine(measure, lines[line], want, column);
      CaretKeepsWhole(Now(), id, caret);
      widgets := widgets[id := target.(caret := caret)];
    }

    /** The whole window after a press: only `pressed` inside the open list, `PressedOutside` elsewhere. */
    method Press(x: int, y: int)
      requires Valid()
      modifies this`widgets, this`list, this`pressed, this`popup, this`focus, this`dragging, this`grabY, this`changes
      ensures Valid() && UserStep(old(widgets), widgets, old(changes), changes)
      ensures var placed := old(Placed());
              if placed.popup != 0 && Contains(placed.list, x, y) then Now() == placed.(pressed := placed.popup)
              else PressedOutside(ListClosed(placed), Now(), x, y, measure, scale)
    {
      hide Changes, ListScrollInside, FocusableOrNone, ScrollingOrNone, OpenSelectOrNone, ListBoxOf;
      hide Whole, UserStep, SameStructure, SameReadings, AllLaidOut, SamePlaces, FocusAt,
           UniqueLeafAt, PressedOutside, Tree, PlacedWindow, Contains;
      ghost var start := widgets;
      ghost var scene := CurrentScene();
      TreeFacts(Now());
      Layout();
      LaidOutUnique(scene, widgets, x, y);
      PointerFacts(Now());
      FieldsKeepWhole(Now(), Now().(pressed := 0, focus := focus));
      pressed := 0;
      QuietStep(start, widgets, changes);
      if popup != 0 {
        if Contains(list, x, y) {
          PointerFacts(Now());
          FieldsKeepWhole(Now(), Now().(pressed := popup, focus := focus));
          pressed := popup;
          return;
        }
        ghost var laid := Now();
        ClosePopup();
        ClosedPlaces(laid);
        UniqueKept(laid.widgets, widgets, x, y);
        QuietTwice(start, laid.widgets, widgets);
      }
      ghost var closed := Now();
      PressOutside(x, y, start);
      PressedBefore(closed, ListClosed(old(Placed())), Now(), x, y, measure, scale);
    }

    /** A press that is not on an open list. */
    method PressOutside(x: int, y: int, ghost start: map<int, Widget>)
      requires Valid() && popup == 0 && pressed == 0 && UniqueLeafAt(widgets, x, y)
      requires SameStructure(start, widgets) && SameReadings(start, widgets)
      modifies this`widgets, this`pressed, this`focus, this`dragging, this`grabY, this`changes
      ensures Valid() && UserStep(start, widgets, old(changes), changes)
      ensures PressedOutside(old(Now()), Now(), x, y, measure, scale)
    {
      hide Whole, UserStep, SameStructure, SameReadings, SamePlaces, FocusAt, UniqueLeafAt,
           PressedOn, OnScrollbar, Thumb;
      hide Changes, Tree, ListScrollInside, OpenSelectOrNone, ScrollingOrNone, FocusableOrNone;
      PointerFacts(Now());
      var id := Hit(x, y);
      FocusFound(widgets, x, y, id);
      QuietStep(start, widgets, changes);
      FieldsKeepWhole(Now(), Now().(focus := 0));
      focus := 0;
      if id != 0 && widgets[id].Focusable() {
        PressFound(id, x, y);
        QuietThenStep(start, old(widgets), widgets, old(changes), changes);
        FocusAtKept(old(widgets), widgets, x, y, focus);
      }
    }

    /** A press on a focusable leaf. */
    method PressFound(id: int, x: int, y: int)
      requires Valid() && id in widgets && widgets[id].Focusable() && id != 0
      modifies this`widgets, this`pressed, this`focus, this`dragging, this`grabY, this`changes
      ensures Valid() && UserStep(old(widgets), widgets, old(changes), changes)
      ensures SameStructure(old(widgets), widgets) && SamePlaces(old(widgets), widgets)
      ensures pressed == focus == id && PressedOn(old(widgets), widgets, id, x, y, measure, scale)
      ensures var t := old(widgets)[id];
              if OnScrollbar(t, x, y) then
                ViewportOf(t).h >= 0 && id in widgets
                && dragging == id && grabY == y - Thumb(ViewportOf(t), widgets[id].scrollY).0
              else dragging == old(dragging) && grabY == old(grabY)
    {
      hide Whole, UserStep, SameStructure, SamePlaces, PressedOn, OnScrollbar, Thumb;
      FieldsKeepWhole(Now(), Now().(pressed := id, focus := id));
      pressed, focus := id, id;
      PressLeaf(id, x, y);
    }

    /** What a press does to the focusable leaf under it: drag its scroll bar,
        select its row, or move its caret. */
    method PressLeaf(id: int, x: int, y: int)
      requires Valid() && id in widgets && widgets[id].Focusable()
      modifies this`widgets, this`dragging, this`grabY, this`changes
      ensures Valid() && UserStep(old(widgets), widgets, old(changes), changes)
      ensures SameStructure(old(widgets), widgets) && SamePlaces(old(widgets), widgets)
      ensures PressedOn(old(widgets), widgets, id, x, y, measure, scale)
      ensures var t := old(widgets)[id];
              if OnScrollbar(t, x, y) then
                ViewportOf(t).h >= 0 && id in widgets
                && dragging == id && grabY == y - Thumb(ViewportOf(t), widgets[id].scrollY).0
              else dragging == old(dragging) && grabY == old(grabY)
    {
      hide Whole, UserStep, SameStructure, SameReadings, SamePlaces, OnScrollbar, OnThumb, Jumped,
           UserSelected, ClickedPosition;
      hide ViewportOf;
      ViewportHigh(widgets[id]);
      WidgetFacts(Now(), id);
      SamePlacesSelf(widgets);
      QuietSelf(widgets);
      QuietStep(widgets, widgets, changes);
      assert widgets == widgets[id := widgets[id]];
      var taken := PressScrollbar(id, x, y);
      if taken {
        QuietStep(old(widgets), widgets, changes);
        return;
      }
      var target := widgets[id];
      match target.kind {
        case ListBox => PressRow(id, y);
        case TableView => PressRow(id, y);
        case AreaInput =>
          PlaceAreaCaret(id, x, y);
          SamePlacesUpdate(old(widgets), old(widgets), id, widgets[id]);
          QuietStep(old(widgets), widgets, changes);
        case _ =>
      }
    }

    method PressRow(id: int, y: int)
      requires Valid() && id in widgets && (widgets[id].kind == ListBox || widgets[id].kind == TableView)
      modifies this`widgets, this`changes
      ensures Valid() && UserStep(old(widgets), widgets, old(changes), changes)
      ensures SameStructure(old(widgets), widgets) && SamePlaces(old(widgets), widgets)
      ensures var row := RowAt(old(widgets)[id], y);
              widgets == old(widgets)[id := if row >= 0 then UserSelected(old(widgets)[id], row) else old(widgets)[id]]
    {
      hide Whole, SamePlaces;
      WidgetFacts(Now(), id);
      SamePlacesSelf(widgets);
      var row := RowAt(widgets[id], y);
      if row >= 0 {
        UserSelect(id, row);
        SamePlacesUpdate(old(widgets), old(widgets), id, widgets[id]);
      } else {
        QuietSelf(widgets);
        QuietStep(widgets, widgets, changes);
        assert widgets == widgets[id := widgets[id]];
      }
    }

    /** Moves the scroll bar being dragged. */
    method Drag(x: int, y: int)
      requires Valid()
      modifies this`widgets, this`dragging
      ensures Valid() && dragging == old(dragging)
      ensures SameStructure(old(widgets), widgets) && SameReadings(old(widgets), widgets)
      ensures dragging == 0 ==> widgets == old(widgets)
      ensures dragging != 0 ==>
        dragging in old(widgets) && ViewportOf(old(widgets)[dragging]).h >= 0
        && widgets == old(widgets)[dragging := Dragged(old(widgets)[dragging], grabY, y)]
    {
      hide Whole, SameStructure, SameReadings;
      PointerFacts(Now());
      if dragging == 0 {
        QuietSelf(widgets);
        return;
      }
      WidgetFacts(Now(), dragging);
      DragScrollbar(dragging, y);
    }

    /** Tab (1) and Shift+Tab (-1): closes an open list and moves the focus, skipping disabled widgets. */
    method FocusStep(direction: int)
      requires Valid() && (direction == 1 || direction == -1)
      modifies this`widgets, this`popup, this`focus
      ensures Valid() && popup == 0 && widgets == ListClosed(old(Now())).widgets
      ensures SameStructure(old(widgets), widgets) && SameReadings(old(widgets), widgets)
      ensures NoneFocusable(widgets) ==> focus == old(focus)
      ensures !NoneFocusable(widgets) && direction == 1 ==> NextFocus(widgets, old(focus), focus)
      ensures !NoneFocusable(widgets) && direction == -1 ==>
        PreviousFocus(widgets, if old(focus) == 0 then next + 1 else old(focus), focus)
    {
      hide Whole, SameStructure, SameReadings, NextFocus, PreviousFocus, ListClosed;
      ClosePopup();
      ClosedFields(old(Now()));
      var id := FindFocusable(direction);
      if id != 0 {
        FieldsKeepWhole(Now(), Now().(focus := id));
        focus := id;
      }
    }

    /** The next or previous focusable widget, or 0 when there is none. */
    method FindFocusable(direction: int) returns (id: int)
      requires Valid() && (direction == 1 || direction == -1)
      ensures id == 0 <==> NoneFocusable(widgets)
      ensures id != 0 && direction == 1 ==> NextFocus(widgets, focus, id)
      ensures id != 0 && direction == -1 ==> PreviousFocus(widgets, if focus == 0 then next + 1 else focus, id)
      ensures id != 0 ==> FocusableOrNone(widgets, id)
    {
      hide Whole, NextFocus, PreviousFocus, Truncated, Tree, Changes, ListScrollInside;
      var n := |order|;
      OrderFacts(Now());
      TreeFacts(Now());
      PointerFacts(Now());
      var start := FocusStart(direction);
      for step := 1 to n + 1
        invariant forall k :: k in widgets && widgets[k].Focusable() ==> StepsTo(focus, direction, k, n) >= step
      {
        id := order[Around(start + direction * step, n)];
        assert StepsTo(focus, direction, id, n) == step;
        if widgets[id].Focusable() {
          StepReached(Now(), direction, id);
          return;
        }
      }
      id := 0;
    }

    /** The index the focus is at; before the first widget, or after the last, when there is none. */
    method FocusStart(direction: int) returns (start: int)
      requires Valid()
      ensures start == if focus != 0 then focus - 1 else if direction < 0 then |order| else -1
    {
      hide Whole;
      OrderFacts(Now());
      PointerFacts(Now());
      start := if direction < 0 then |order| else -1;
      for index := 0 to |order|
        invariant start == if 0 < focus <= index then focus - 1 else if direction < 0 then |order| else -1
      {
        if order[index] == focus {
          start := index;
        }
      }
    }

    /** True exactly when a list was open, which is then closed. */
    method Escape() returns (was: bool)
      requires Valid()
      modifies this`widgets, this`popup
      ensures Valid() && was == (old(popup) != 0) && Now() == ListClosed(old(Now()))
      ensures SameStructure(old(widgets), widgets) && SameReadings(old(widgets), widgets)
    {
      hide Whole, SameStructure, SameReadings;
      PointerFacts(Now());
      if popup == 0 {
        QuietSelf(widgets);
        return false;
      }
      ClosePopup();
      was := true;
    }

    /** Picks a choice of the open list, or none, and closes the list. */
    method PickChoice(choice: int)
      requires Valid() && popup != 0
      modifies this`widgets, this`popup, this`changes
      ensures Valid() && popup == 0 && UserStep(old(widgets), widgets, old(changes), changes)
      ensures old(popup) in old(widgets) && Now() == Picked(old(Now()), choice)
      ensures OthersRead(old(widgets), widgets, old(popup))
    {
      hide Whole, UserStep, SameStructure, SameReadings, UserSelected, OthersRead;
      PointerFacts(Now());
      WidgetFacts(Now(), popup);
      QuietSelf(widgets);
      if choice >= 0 {
        UserSelect(popup, choice);
      } else {
        QuietStep(widgets, widgets, changes);
        assert widgets == widgets[popup := widgets[popup]];
      }
      ghost var picked := widgets;
      ClosePopup();
      StepThenQuiet(old(widgets), picked, widgets, old(changes), changes);
      OthersReadUpdate(old(widgets), old(widgets), old(popup), picked[old(popup)]);
      OthersReadThrough(old(widgets), old(widgets), picked, widgets, old(popup));
    }

    /** Decided by the kind of the focused widget: an open Select takes its highlight, a Checkbox heeds Space
        only, and a text field leaves the window as it is. */
    method ActivateFocused(space: bool) returns (clicked: int)
      requires Valid()
      modifies this`widgets, this`popup, this`list, this`changes
      ensures Valid() && UserStep(old(widgets), widgets, old(changes), changes)
      ensures clicked == if focus != 0 && old(widgets)[focus].kind == Button then focus else 0
      ensures Now() ==
        if focus !in old(widgets) then old(Now())
        else
          var t := old(widgets)[focus];
          if t.kind == Select && old(popup) == focus then Picked(old(Now()), t.highlight)
          else if t.kind == Checkbox && !space then old(Now())
          else Activated(old(Now()), focus)
    {
      hide Whole, UserStep, SameStructure, SameReadings, UserSelected, Activated, Picked;
      PointerFacts(Now());
      QuietSelf(widgets);
      QuietStep(widgets, widgets, changes);
      if focus == 0 {
        return 0;
      }
      WidgetFacts(Now(), focus);
      ActivatedFocus(Now(), focus);
      var target := widgets[focus];
      clicked := 0;
      if target.kind == Button || (target.kind == Checkbox && space) {
        clicked := Activate(focus);
      } else if target.kind == Select && popup == focus {
        PickChoice(target.highlight);
      } else if target.kind == Select {
        OpenPopup(focus);
        QuietStep(old(widgets), widgets, changes);
      }
    }

    /** The window becomes `ReleasedAt` of the laid-out window and the answer is `ClickedAt`: a drag, an open
        list and a pressed leaf exclude each other in that order. */
    method Release(x: int, y: int) returns (clicked: int)
      requires Valid()
      modifies this`widgets, this`list, this`pressed, this`popup, this`dragging, this`changes
      ensures Valid() && UserStep(old(widgets), widgets, old(changes), changes)
      ensures OthersRead(old(widgets), widgets, old(pressed))
      ensures var placed := old(Placed());
              (placed.popup in placed.widgets ==> ListScrollInside(placed.widgets[placed.popup]))
              && Now() == ReleasedAt(placed, x, y) && clicked == ClickedAt(placed, x, y)
    {
      hide Changes, FocusableOrNone, ScrollingOrNone, OpenSelectOrNone, ListBoxOf;
      hide Whole, UserStep, SameStructure, SameReadings, AllLaidOut, UniqueLeafAt, OthersRead,
           Tree, PlacedWindow, Picked,
           Activated, ListScrollInside, LeafAt;
      ghost var start := widgets;
      ghost var scene := CurrentScene();
      TreeFacts(Now());
      Layout();
      LaidOutUnique(scene, widgets, x, y);
      clicked := ReleasePlaced(x, y, start);
    }

    /** A release on a laid-out window. */
    method ReleasePlaced(x: int, y: int, ghost start: map<int, Widget>) returns (clicked: int)
      requires Valid() && UniqueLeafAt(widgets, x, y) && SameStructure(start, widgets) && SameReadings(start, widgets)
      modifies this`widgets, this`list, this`pressed, this`popup, this`dragging, this`changes
      ensures Valid() && UserStep(start, widgets, old(changes), changes) && OthersRead(start, widgets, old(pressed))
      ensures old(popup) in old(widgets) ==> ListScrollInside(old(widgets)[old(popup)])
      ensures Now() == ReleasedAt(old(Now()), x, y) && clicked == ClickedAt(old(Now()), x, y)
    {
      hide Whole, UserStep, SameStructure, SameReadings, UniqueLeafAt, OthersRead, Picked,
           Activated, ListScrollInside, LeafAt;
      hide OpenSelectOrNone, ScrollingOrNone;
      FieldsKeepWhole(Now(), Now().(pressed := 0));
      FieldsKeepWhole(Now(), Now().(pressed := 0, dragging := 0));
      PointerFacts(Now());
      var wasPressed := pressed;
      pressed := 0;
      clicked := 0;
      QuietStep(start, widgets, changes);
      QuietSelf(widgets);
      OthersReadQuiet(start, widgets, widgets, wasPressed);
      if dragging != 0 {
        dragging := 0;
        return;
      }
      if wasPressed != 0 && wasPressed == popup {
        ReleaseInList(x, y, start);
      } else {
        clicked := ReleaseOn(wasPressed, x, y, start);
      }
    }

    /** A release of a press that was on the open list. */
    method ReleaseInList(x: int, y: int, ghost start: map<int, Widget>)
      requires Valid() && popup != 0
      requires SameStructure(start, widgets) && SameReadings(start, widgets)
      modifies this`widgets, this`popup, this`changes
      ensures Valid() && UserStep(start, widgets, old(changes), changes) && OthersRead(start, widgets, old(popup))
      ensures old(popup) in old(widgets) && old(widgets)[old(popup)].kind == Select
      ensures ListScrollInside(old(widgets)[old(popup)])
      ensures var choice := if Contains(list, x, y) then ChoiceAt(old(widgets)[old(popup)], list, y) else -1;
              Now() == if choice >= 0 then Picked(old(Now()), choice) else old(Now())
    {
      hide Whole, UserStep, SameStructure, SameReadings, OthersRead, Picked;
      PointerFacts(Now());
      WidgetFacts(Now(), popup);
      QuietStep(start, widgets, changes);
      QuietSelf(widgets);
      OthersReadQuiet(start, widgets, widgets, popup);
      if Contains(list, x, y) {
        var choice := ChoiceAt(widgets[popup], list, y);
        if choice >= 0 {
          PickChoice(choice);
          QuietSelf(widgets);
          OthersReadThrough(start, old(widgets), widgets, widgets, old(popup));
          QuietThenStep(start, old(widgets), widgets, old(changes), changes);
        }
      }
    }

    /** A release of a press that was on a widget, or on none. */
    method ReleaseOn(wasPressed: int, x: int, y: int, ghost start: map<int, Widget>) returns (clicked: int)
      requires Valid() && UniqueLeafAt(widgets, x, y) && FocusableOrNone(widgets, wasPressed)
      requires SameStructure(start, widgets) && SameReadings(start, widgets)
      modifies this`widgets, this`popup, this`list, this`changes
      ensures Valid() && UserStep(start, widgets, old(changes), changes) && OthersRead(start, widgets, wasPressed)
      ensures Now() == if wasPressed in old(widgets) && LeafAt(old(widgets)[wasPressed], x, y)
                       then Activated(old(Now()), wasPressed) else old(Now())
      ensures clicked == Clicked(old(widgets), wasPressed, x, y)
    {
      hide Whole, UserStep, SameStructure, SameReadings, UniqueLeafAt, OthersRead, Activated, LeafAt, ReadingOf;
      PointerFacts(Now());
      clicked := 0;
      QuietStep(start, widgets, changes);
      QuietSelf(widgets);
      OthersReadQuiet(start, widgets, widgets, wasPressed);
      var id := Hit(x, y);
      HitIs(widgets, x, y, id, wasPressed);
      if id == 0 || id != wasPressed {
        return;
      }
      clicked := Activate(id);
      QuietSelf(widgets);
      OthersReadThrough(start, old(widgets), widgets, widgets, id);
      QuietThenStep(start, old(widgets), widgets, old(changes), changes);
    }

    // ---- typing and editing ----------------------------------------------------

    /** The focused, enabled text field, or none. */
    method FocusedInput() returns (id: int)
      requires Valid()
      ensures id == if focus in widgets && TakesText(widgets[focus]) then focus else 0
      ensures id != 0 ==> !widgets[id].disabled
    {
      hide Whole;
      PointerFacts(Now());
      if focus !in widgets || !TakesText(widgets[focus]) || widgets[focus].disabled {
        return 0;
      }
      id := focus;
    }

    /** Replaces one widget by what the user made of it, and records a changed reading. */
    method Replace(id: int, target: Widget, changed: bool)
      requires Valid() && id in widgets && SameByUser(widgets[id], target) && SameNode(widgets[id], target)
      requires WidgetInside(target) && (id == popup ==> ListScrollInside(target))
      requires changed == (ReadingOf(target) != ReadingOf(widgets[id]))
      modifies this`widgets, this`changes
      ensures Valid() && UserStep(old(widgets), widgets, old(changes), changes)
      ensures widgets == old(widgets)[id := target]
      ensures changes == if changed then Noting(old(changes), id) else old(changes)
    {
      hide Whole, UserStep, WidgetInside, ScrollInside, ReadingOf;
      ghost var s := Now();
      UpdateKeepsWhole(s, id, target);
      widgets := widgets[id := target];
      if changed {
        NotingKeepsChanges(Now(), id);
        NoteChange(id);
      }
      UserUpdates(s.widgets, id, target, s.changes, changes);
    }

    /** Types runes into the focused text field; false when there is none. */
    method Insert(runes: seq<Rune>) returns (used: bool)
      requires Valid()
      modifies this`widgets, this`changes
      ensures Valid() && UserStep(old(widgets), widgets, old(changes), changes)
      ensures used == (focus in old(widgets) && TakesText(old(widgets)[focus]))
      ensures !used ==> Now() == old(Now())
      ensures used ==>
        var t := old(widgets)[focus];
        0 <= t.caret <= |t.text| && widgets == old(widgets)[focus := Typed(t, runes)]
    {
      hide Whole, UserStep, WidgetInside, TypedText, CaretRevealed, Typed, SameNode, ReadingOf, ListScrollInside;
      ghost var s := Now();
      QuietSelf(widgets);
      QuietStep(widgets, widgets, changes);
      var id := FocusedInput();
      PointerFacts(s);
      if id == 0 {
        return false;
      }
      WidgetFacts(s, id);
      InsideFacts(widgets[id]);
      TypedInside(widgets[id], runes);
      var changed, target := TypeRunes(widgets[id], runes);
      used := true;
      target := if changed then CaretRevealed(target) else widgets[id];
      SameNodeOf(widgets[id], target);
      Replace(id, target, changed);
    }

    /** The focused text field becomes `Keyed`, and is queued exactly when its text is another one; false
        without such a field. */
    method Edit(key: Key) returns (used: bool)
      requires Valid()
      modifies this`widgets, this`changes
      ensures Valid() && UserStep(old(widgets), widgets, old(changes), changes)
      ensures used == (focus in old(widgets) && TakesText(old(widgets)[focus]))
      ensures !used ==> Now() == old(Now())
      ensures used ==>
        var t := old(widgets)[focus];
        0 <= t.caret <= |t.text| <= t.Limit() && widgets == old(widgets)[focus := Keyed(t, key)]
    {
      hide Whole, UserStep, WidgetInside, EditedArea, CaretRevealed, Keyed, SameNode, ReadingOf, ListScrollInside;
      ghost var s := Now();
      QuietSelf(widgets);
      QuietStep(widgets, widgets, changes);
      var id := FocusedInput();
      PointerFacts(s);
      if id == 0 {
        return false;
      }
      WidgetFacts(s, id);
      InsideFacts(widgets[id]);
      KeyedInside(widgets[id], key);
      var target := widgets[id];
      used := true;
      var changed;
      if target.kind == AreaInput {
        changed, target := EditArea(target, key);
      } else {
        changed, target := EditLine(target, key);
      }
      SameNodeOf(widgets[id], target);
      Replace(id, target, changed);
    }

    // ---- navigation keys, the wheel and scripted input ---------------------------

    /** An open list moves its highlight and nothing is queued; without one the focused widget is selected anew
        as by `UserSelect`. */
    method Navigate(key: Key) returns (used: bool)
      requires Valid()
      modifies this`widgets, this`changes
      ensures Valid() && UserStep(old(widgets), widgets, old(changes), changes)
      ensures !used ==> Now() == old(Now())
      ensures used == (focus in old(widgets) && old(widgets)[focus].Selecting() && Navigates(key))
      ensures used ==> widgets == old(widgets)[focus := Navigated(old(widgets)[focus], popup == focus, key)]
    {
      hide Whole, UserStep, WidgetInside, SameStructure, SameReadings, UserSelected, Highlighted;
      ghost var s := Now();
      QuietSelf(widgets);
      QuietStep(widgets, widgets, changes);
      PointerFacts(s);
      used := false;
      if focus == 0 || !widgets[focus].Selecting() {
        return;
      }
      WidgetFacts(s, focus);
      InsideFacts(widgets[focus]);
      var target := widgets[focus];
      var step := StepIndex(if popup == focus then target.highlight else target.selected, target.Count(), key);
      if step.None? {
        return;
      }
      used := true;
      if popup == focus {
        HighlightedInside(target, step.value);
        ViewKeepsWhole(s, focus, Highlighted(target, step.value));
        widgets := widgets[focus := Highlighted(target, step.value)];
        QuietStep(s.widgets, widgets, changes);
      } else if step.value >= 0 {
        UserSelect(focus, step.value);
      } else {
        assert widgets == widgets[focus := widgets[focus]];
      }
    }

    /** Turns the wheel over an open list or a scrolling widget. */
    method Wheel(x: int, y: int, dx: real, dy: real) returns (scrolled: bool)
      requires Valid()
      modifies this`widgets, this`list
      ensures Valid() && SameStructure(old(widgets), widgets) && SameReadings(old(widgets), widgets)
      ensures WheelTurned(old(Placed()), Now(), scrolled, x, y, dx, dy)
    {
      hide Whole, SameStructure, SameReadings, AllLaidOut, UniqueLeafAt, PlacedWindow, Tree, Changes, WheelTurned;
      TreeFacts(Now());
      ghost var start := widgets;
      ghost var scene := CurrentScene();
      Layout();
      LaidOutUnique(scene, widgets, x, y);
      ghost var laid := widgets;
      scrolled := WheelPlaced(x, y, dx, dy);
      QuietTwice(start, laid, widgets);
    }

    /** The wheel on a laid-out window. */
    method WheelPlaced(x: int, y: int, dx: real, dy: real) returns (scrolled: bool)
      requires Valid() && UniqueLeafAt(widgets, x, y)
      modifies this`widgets
      ensures Valid() && SameStructure(old(widgets), widgets) && SameReadings(old(widgets), widgets)
      ensures WheelTurned(old(Now()), Now(), scrolled, x, y, dx, dy)
    {
      hide Whole, SameStructure, SameReadings, WidgetInside, UniqueLeafAt, LeafAt, Wheeled, ListWheeled, ScrollInside,
           ListScrollInside, Contains;
      PointerFacts(Now());
      QuietSelf(widgets);
      if popup != 0 {
        if !Contains(list, x, y) {
          return false;
        }
        WidgetFacts(Now(), popup);
        ListWheeledInside(widgets[popup], dy);
        InsideFacts(widgets[popup]);
        ViewKeepsWhole(Now(), popup, ListWheeled(widgets[popup], dy));
        widgets := widgets[popup := ListWheeled(widgets[popup], dy)];
        return true;
      }
      var id := Hit(x, y);
      OnlyScrollable(widgets, id, x, y);
      if id == 0 || !widgets[id].Scrolling() || widgets[id].disabled {
        return false;
      }
      WidgetFacts(Now(), id);
      WheeledInside(widgets[id], dx, dy);
      InsideFacts(widgets[id]);
      ViewKeepsWhole(Now(), id, Wheeled(widgets[id], dx, dy));
      assert ScrollableAt(widgets, id, x, y);
      widgets := widgets[id := Wheeled(widgets[id], dx, dy)];
      scrolled := true;
    }

    /** Types into a text field wherever the focus is, and puts the focus back. */
    method TypeInto(id: int, runes: seq<Rune>) returns (problem: Option<Problem>)
      requires Valid()
      modifies this`widgets, this`changes, this`focus
      ensures Valid() && UserStep(old(widgets), widgets, old(changes), changes) && focus == old(focus)
      ensures problem == if id in old(widgets) && TakesText(old(widgets)[id]) then None else Some(WrongKind)
      ensures if problem.Some? || old(widgets)[id].disabled then Now() == old(Now())
              else var t := old(widgets)[id];
                   0 <= t.caret <= |t.text| && widgets == old(widgets)[id := Typed(t, runes)]
    {
      hide Whole, UserStep, WidgetInside, Typed;
      ghost var s := Now();
      QuietSelf(widgets);
      QuietStep(widgets, widgets, changes);
      problem := None;
      if id !in widgets || !TakesText(widgets[id]) {
        return Some(WrongKind);
      }
      if widgets[id].disabled {
        return;
      }
      var previous := focus;
      PointerFacts(s);
      FieldsKeepWhole(s, s.(pressed := pressed, focus := id));
      focus := id;
      var used := Insert(runes);
      StepKeepsFocusable(s.widgets, widgets, s.changes, changes, previous);
      PointerFacts(Now());
      FieldsKeepWhole(Now(), Now().(pressed := pressed, focus := previous));
      focus := previous;
    }

    /** Clicks a Checkbox from a script. */
    method Toggle(id: int) returns (problem: Option<Problem>)
      requires Valid()
      modifies this`widgets, this`popup, this`list, this`changes
      ensures Valid() && UserStep(old(widgets), widgets, old(changes), changes)
      ensures problem == if id in old(widgets) && old(widgets)[id].kind == Checkbox then None else Some(WrongKind)
      ensures if problem.Some? || old(widgets)[id].disabled then Now() == old(Now())
              else Now() == old(Now()).(widgets := old(widgets)[id :=
                  old(widgets)[id].(checked := !old(widgets)[id].checked)],
                                        changes := Noting(old(changes), id))
    {
      hide Whole, UserStep;
      QuietSelf(widgets);
      QuietStep(widgets, widgets, changes);
      if id !in widgets || widgets[id].kind != Checkbox {
        return Some(WrongKind);
      }
      if !widgets[id].disabled {
        var clicked := Activate(id);
      }
      problem := None;
    }

    /** Selects an item or row from a script. */
    method Choose(id: int, index: int) returns (problem: Option<Problem>)
      requires Valid()
      modifies this`widgets, this`changes
      ensures Valid() && UserStep(old(widgets), widgets, old(changes), changes)
      ensures problem == SelectProblem(old(widgets), id, index)
      ensures if problem.Some? then Now() == old(Now())
              else widgets == old(widgets)[id := UserSelected(old(widgets)[id], index)]
    {
      hide Whole, UserStep, UserSelected;
      QuietSelf(widgets);
      QuietStep(widgets, widgets, changes);
      if id !in widgets || !widgets[id].Selecting() {
        return Some(WrongKind);
      }
      if index < -1 || index >= widgets[id].Count() {
        return Some(BadIndex);
      }
      UserSelect(id, index);
      problem := None;
    }

    // ---- the program's requests --------------------------------------------------

    /** Either the problem of `AddProblem` and no change at all, or `Added` with the next id. */
    method AddSpec(parent: int, spec: Spec) returns (id: int, problem: Option<Problem>)
      requires Valid()
      modifies this`widgets, this`order, this`root, this`next
      ensures Valid() && problem == AddProblem(old(Now()), parent, spec)
      ensures problem.Some? ==> id == 0 && Now() == old(Now())
      ensures problem.None? ==>
        && id == next == old(next) + 1 && id !in old(widgets)
        && order == old(order) + [id] && root == (if parent == 0 then id else old(root))
        && widgets == Added(old(widgets), parent, Created(id, parent, spec, SpecWidths(measure, spec)))
      ensures problem.None? && spec.kind == TableView ==>
        id in widgets && ValidTable(spec.columns, spec.rows)
        && widgets[id].widths == WidthsOf(measure, spec.columns, spec.rows)
    {
      hide Changes, Tree;
      hide Whole, ValidText, ValidAreaText, ValidItems, ValidTable, ColumnWidth, AddProblem, Created, Added, WidthsOf;
      hide ValidSpec, SpecWidths;
      ghost var s := Now();
      id := 0;
      problem := AddRefused(parent, spec);
      if problem.Some? {
        return;
      }
      AddFits(s, parent, spec);
      SpecWidthsOf(measure, spec);
      var widths: seq<int> := [];
      if spec.kind == TableView {
        widths := ColumnWidths(spec.columns, spec.rows);
      }
      AddKeepsWhole(s, parent, spec, widths);
      EmptyTree(s);
      TreeFacts(s);
      next := next + 1;
      id := next;
      var created := Created(id, parent, spec, widths);
      CreatedFacts(id, parent, spec, widths);
      widgets := widgets[id := created];
      order := order + [id];
      if parent == 0 {
        root := id;
      } else {
        widgets := widgets[parent := widgets[parent].(children := widgets[parent].children + [id])];
      }
      AddedOrder(s.widgets, parent, created);
    }

    /** The checks of a new widget, in the order their reasons are reported. */
    method AddRefused(parent: int, spec: Spec) returns (problem: Option<Problem>)
      requires Valid()
      ensures problem == AddProblem(Now(), parent, spec)
    {
      hide Whole, ValidSpec;
      if |widgets| >= MAX_WIDGETS {
        return Some(TooMany);
      }
      if !ValidSpec(spec) {
        return Some(Invalid);
      }
      if (spec.kind == ListBox || spec.kind == Select) && (spec.selected < -1 || spec.selected >= |spec.items|) {
        return Some(BadIndex);
      }
      if parent == 0 {
        if root != 0 {
          return Some(SecondRoot);
        }
        return if spec.kind in {Column, Row} then None else Some(NotContainer);
      }
      if parent !in widgets {
        return Some(NoParent);
      }
      problem := if widgets[parent].Container() then None else Some(NotContainer);
    }

    /** Computes `WidthsOf`, one column after the other. */
    method ColumnWidths(columns: seq<Text>, rows: seq<seq<Text>>) returns (widths: seq<int>)
      requires forall row :: row in rows ==> |row| == |columns|
      ensures widths == WidthsOf(measure, columns, rows)
    {
      hide ColumnWidth;
      widths := [];
      for column := 0 to |columns|
        invariant |widths| == column
        invariant forall i :: 0 <= i < column ==> widths[i] == ColumnWidth(measure, columns, rows, i)
      {
        var width := OneColumnWidth(columns, rows, column);
        widths := widths + [width];
      }
    }

    method OneColumnWidth(columns: seq<Text>, rows: seq<seq<Text>>, column: nat) returns (width: int)
      requires column < |columns| && forall row :: row in rows ==> |row| == |columns|
      ensures width == ColumnWidth(measure, columns, rows, column)
    {
      width := measure(columns[column]);
      for n := 0 to Min(|rows|, MEASURED_ROWS)
        invariant width == WidestCell(measure, columns, rows, column, n)
      {
        if rows[n][column] != [] {
          width := Max(width, measure(rows[n][column]));
        }
      }
      width := Min(Max(width + 2 * ITEM_INSET, MIN_COLUMN_WIDTH), MAX_COLUMN_WIDTH);
    }

    method SetText(id: int, text: Text) returns (problem: Option<Problem>)
      requires Valid()
      modifies this`widgets
      ensures Valid() && problem == TextProblem(old(widgets), id, text)
      ensures if problem.Some? then Now() == old(Now())
              else widgets == old(widgets)[id := TextSet(old(widgets)[id], text)]
    {
      hide Whole, WidgetInside, ValidText, SameNode;
      problem := TextProblem(widgets, id, text);
      if problem.Some? {
        return;
      }
      WidgetFacts(Now(), id);
      TextFits(widgets, id, text);
      TextSetInside(widgets[id], text);
      SameNodeOf(widgets[id], TextSet(widgets[id], text));
      UpdateKeepsWhole(Now(), id, TextSet(widgets[id], text));
      widgets := widgets[id := TextSet(widgets[id], text)];
    }

    method SetChecked(id: int, checked: bool) returns (problem: Option<Problem>)
      requires Valid()
      modifies this`widgets
      ensures Valid()
      ensures problem == if id !in old(widgets) then Some(NoWidget)
                         else if old(widgets)[id].kind != Checkbox then Some(WrongKind) else None
      ensures if problem.Some? then Now() == old(Now())
              else widgets == old(widgets)[id := old(widgets)[id].(checked := checked)]
    {
      hide Whole, WidgetInside, SameNode, ScrollInside, Revealed;
      if id !in widgets {
        return Some(NoWidget);
      }
      if widgets[id].kind != Checkbox {
        return Some(WrongKind);
      }
      WidgetFacts(Now(), id);
      InsideFacts(widgets[id]);
      var target := widgets[id].(checked := checked);
      ValueSetInside(widgets[id], target);
      UpdateKeepsWhole(Now(), id, target);
      widgets := widgets[id := target];
      problem := None;
    }

    /** `Replaced` with other items; the queue keeps. */
    method SetItems(id: int, items: seq<Text>) returns (problem: Option<Problem>)
      requires Valid()
      modifies this`widgets, this`popup
      ensures Valid()
      ensures problem == if id !in old(widgets) then Some(NoWidget)
                         else if old(widgets)[id].kind !in {ListBox, Select} then Some(WrongKind)
                         else if !ValidItems(items) then Some(Invalid) else None
      ensures if problem.Some? then Now() == old(Now())
              else widgets == old(widgets)[id := Replaced(old(widgets)[id].(items := items))]
                   && popup == if old(popup) == id then 0 else old(popup)
    {
      hide Whole, ValidItems, SameNode, ScrollInside, Replaced;
      if id !in widgets {
        return Some(NoWidget);
      }
      if widgets[id].kind != ListBox && widgets[id].kind != Select {
        return Some(WrongKind);
      }
      if !ValidItems(items) {
        return Some(Invalid);
      }
      WidgetFacts(Now(), id);
      var target := widgets[id].(items := items);
      ReplacedInside(target);
      ReplacedNode(widgets[id], target);
      hide WidgetInside;
      AfterReplace(id, target);
      problem := None;
    }

    /** `Replaced` with other rows and the widths they need; the queue keeps. */
    method SetRows(id: int, rows: seq<seq<Text>>) returns (problem: Option<Problem>)
      requires Valid()
      modifies this`widgets, this`popup
      ensures Valid()
      ensures problem == if id !in old(widgets) then Some(NoWidget)
                         else if old(widgets)[id].kind != TableView then Some(WrongKind)
                         else if !ValidTable(old(widgets)[id].columns, rows) then Some(Invalid) else None
      ensures if problem.Some? then Now() == old(Now())
              else
                ValidTable(old(widgets)[id].columns, rows)
                && widgets == old(widgets)[id := Replaced(old(widgets)[id].(
                     rows := rows, widths := WidthsOf(measure, old(widgets)[id].columns, rows)))]
                && popup == if old(popup) == id then 0 else old(popup)
    {
      hide Whole, SameNode, ScrollInside, Replaced, WidthsOf;
      if id !in widgets {
        return Some(NoWidget);
      }
      if widgets[id].kind != TableView {
        return Some(WrongKind);
      }
      if !ValidTable(widgets[id].columns, rows) {
        return Some(Invalid);
      }
      hide ValidTable;
      TableFacts(widgets[id].columns, rows);
      WidgetFacts(Now(), id);
      var widths := ColumnWidths(widgets[id].columns, rows);
      var target := widgets[id].(rows := rows, widths := widths);
      ReplacedInside(target);
      ReplacedNode(widgets[id], target);
      hide WidgetInside;
      AfterReplace(id, target);
      problem := None;
    }

    /** `Replaced` on one widget, and `popup` is no longer that widget. */
    method AfterReplace(id: int, target: Widget)
      requires Valid() && id in widgets && SameNode(widgets[id], Replaced(target)) && WidgetInside(Replaced(target))
      requires Replaced(target).disabled == widgets[id].disabled
      modifies this`widgets, this`popup
      ensures Valid() && widgets == old(widgets)[id := Replaced(target)]
      ensures popup == if old(popup) == id then 0 else old(popup)
    {
      hide Whole, WidgetInside, SameNode, Clamped;
      ReplaceKeepsWhole(Now(), id, Replaced(target));
      var kept := target;
      if kept.selected >= kept.Count() {
        kept := kept.(selected := -1);
      }
      kept := kept.(highlight := -1);
      if popup == id {
        popup := 0;
      }
      widgets := widgets[id := Clamped(kept)];
    }

    /** `Revealed` at the new index, and the queue is the same afterwards. */
    method SelectIndex(id: int, index: int) returns (problem: Option<Problem>)
      requires Valid()
      modifies this`widgets
      ensures Valid()
      ensures problem == if id !in old(widgets) then Some(NoWidget) else SelectProblem(old(widgets), id, index)
      ensures if problem.Some? then Now() == old(Now())
              else widgets == old(widgets)[id := Revealed(old(widgets)[id].(selected := index))]
    {
      hide Whole, WidgetInside, SameNode, ScrollInside, Revealed, ListScrollInside;
      if id !in widgets {
        return Some(NoWidget);
      }
      problem := SelectProblem(widgets, id, index);
      if problem.Some? {
        return;
      }
      WidgetFacts(Now(), id);
      var target := widgets[id].(selected := index);
      ValueSetInside(widgets[id], target);
      UpdateKeepsWhole(Now(), id, Revealed(target));
      widgets := widgets[id := Revealed(target)];
    }

    /** `EnabledSet`: no pointer of the window is left on a disabled widget. */
    method SetEnabled(id: int, enabled: bool) returns (problem: Option<Problem>)
      requires Valid()
      modifies this`widgets, this`focus, this`pressed, this`popup, this`dragging
      ensures Valid()
      ensures problem == if id !in old(widgets) then Some(NoWidget)
                         else if !old(widgets)[id].Interactive() then Some(WrongKind) else None
      ensures if problem.Some? then Now() == old(Now())
              else id in old(widgets) && Now() == EnabledSet(old(Now()), id, enabled)
    {
      hide Whole;
      if id !in widgets {
        return Some(NoWidget);
      }
      if !widgets[id].Interactive() {
        return Some(WrongKind);
      }
      problem := None;
      EnabledKeepsWhole(Now(), id, enabled);
      var target := widgets[id].(disabled := !enabled);
      if !enabled {
        if focus == id {
          focus := 0;
        }
        if pressed == id {
          pressed := 0;
        }
        if popup == id {
          target := target.(highlight := -1);
          popup := 0;
        }
        if dragging == id {
          dragging := 0;
        }
      }
      widgets := widgets[id := target];
    }

    /** Both sides are clamped; the list closes only when that makes another size. */
    method Resize(newWidth: int, newHeight: int)
      requires Valid()
      modifies this`width, this`height, this`widgets, this`popup
      ensures Valid()
      ensures width == Clamp(newWidth, 1, MAX_DIMENSION) && height == Clamp(newHeight, 1, MAX_DIMENSION)
      ensures width == old(width) && height == old(height) ==> Now() == old(Now())
      ensures width != old(width) || height != old(height) ==>
        Now() == ListClosed(old(Now())).(width := width, height := height)
      ensures SameStructure(old(widgets), widgets) && SameReadings(old(widgets), widgets)
    {
      hide Whole, SameStructure, SameReadings;
      QuietSelf(widgets);
      var w, h := Clamp(newWidth, 1, MAX_DIMENSION), Clamp(newHeight, 1, MAX_DIMENSION);
      if w != width || h != height {
        FieldsKeepWhole(Now(), Now().(width := w, height := h));
        width, height := w, h;
        ClosePopup();
      }
    }

    method SetResizable(allowed: bool)
      requires Valid()
      modifies this`resizable
      ensures Valid() && resizable == allowed
    {
      FieldsKeepWhole(Now(), Now().(resizable := allowed));
      hide Whole;
      resizable := allowed;
    }

    /** The loop computes `ValuesOf` over the creation order. */
    method Values() returns (values: seq<(int, Reading)>)
      requires Valid()
      ensures values == ValuesOf(widgets, order)
    {
      hide Whole;
      OrderFacts(Now());
      values := [];
      for i := 0 to |order|
        invariant values == ValuesOf(widgets, order[..i])
      {
        assert order[..i + 1][..i] == order[..i];
        var reading := ReadingOf(widgets[order[i]]);
        if reading != Nothing {
          values := values + [(order[i], reading)];
        }
      }
      assert order[..|order|] == order;
    }
  }
}
