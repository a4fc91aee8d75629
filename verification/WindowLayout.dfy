/** A window as the layout leaves it: sizes and places of all widgets, the open list,
    and the one leaf under a point. */
module WindowLayout {
  import opened Layout
  import opened LayoutPasses
  import opened TextArea
  import opened Widgets
  import opened WindowState

  lemma RootFacts(s: Scene)
    requires Tree(s.widgets) && |s.widgets| > 0
    ensures 1 in s.widgets
    ensures RectOf(s, 1) == var size := NatSize(s, 1);
                            if size.grows then Rect(0, 0, Max(size.w, s.width), Max(size.h, s.height))
                            else Rect(0, 0, size.w, size.h)
  {
  }

  lemma EmptyWindow(s: Scene, focus: int, pressed: int, popup: int, dragging: int)
    requires Tree(s.widgets) && |s.widgets| == 0 && Pointers(s.widgets, focus, pressed, popup, dragging)
    ensures popup == 0
    ensures AllLaidOut(s, s.widgets) && SameStructure(s.widgets, s.widgets) && SameReadings(s.widgets, s.widgets)
    ensures s.widgets.Keys == {}
  {
  }

  lemma SameShapesSelf(widgets: map<int, Widget>)
    ensures SameShapes(widgets, widgets)
  {
  }

  lemma WholePass(tree: map<int, Widget>, f: Pass, before: map<int, Widget>, after: map<int, Widget>)
    requires Tree(tree) && 1 in tree && PassedBelow(tree, f, before, after, 1)
    ensures before.Keys == after.Keys == tree.Keys && forall k :: k in after ==> after[k] == f(k, before[k])
  {
    hide Tree, Above;
    forall k | k in after
      ensures after[k] == f(k, before[k])
    {
      RootAboveAll(tree, k);
    }
  }

  lemma PassesMeasure(s: Scene, before: map<int, Widget>, after: map<int, Widget>)
    requires Tree(s.widgets) && before == s.widgets && before.Keys == after.Keys
    requires forall k :: k in after ==> after[k] == MeasurePass(s)(k, before[k])
    ensures AllMeasured(s, after) && SameShapes(s.widgets, after)
  {
    hide Tree, NatSize;
  }

  lemma PlacedInside(t: Widget, size: Size, r: Rect)
    requires WidgetInside(t)
    ensures var p := PlacedAt(t.(natW := size.w, natH := size.h, grows := size.grows), r);
            SameByUser(t, p) && ReadingOf(p) == ReadingOf(t) && WidgetInside(p) && p.listScroll == t.listScroll
  {
  }

  ghost predicate AllLaidOut(s: Scene, after: map<int, Widget>)
    requires Tree(s.widgets)
  {
    after.Keys == s.widgets.Keys && forall k :: k in after ==> after[k] == LaidOut(s, k)
  }

  /** A laid-out window keeps its tree, its readings and all content inside. */
  lemma LayoutKeeps(s: Scene, after: map<int, Widget>)
    requires Tree(s.widgets) && AllInside(s.widgets) && AllLaidOut(s, after)
    ensures SameStructure(s.widgets, after) && SameReadings(s.widgets, after)
    ensures Tree(after) && AllInside(after) && |after| == |s.widgets|
    ensures forall k :: k in after ==> after[k].listScroll == s.widgets[k].listScroll
  {
    hide RectOf, NatSize, Tree, PlacedAt, SameByUser, WidgetInside, ReadingOf;
    forall k | k in after
      ensures SameByUser(s.widgets[k], after[k]) && ReadingOf(after[k]) == ReadingOf(s.widgets[k])
      ensures WidgetInside(after[k]) && after[k].listScroll == s.widgets[k].listScroll
    {
      PlacedInside(s.widgets[k], NatSize(s, k), RectOf(s, k));
    }
    StructureKeepsTree(s.widgets, after);
  }

  /** After a layout at most one leaf is under a point, so that is the one found. */
  lemma HitUnique(s: Scene, widgets: map<int, Widget>, a: int, b: int, x: int, y: int)
    requires Tree(s.widgets) && AllLaidOut(s, widgets) && a in widgets && b in widgets
    requires LeafAt(widgets[a], x, y) && LeafAt(widgets[b], x, y)
    ensures a == b
  {
    hide Tree;
    OneLeafAt(s, a, b, x, y);
  }

  /** No widget moves. */
  ghost predicate SamePlaces(a: map<int, Widget>, b: map<int, Widget>) {
    a.Keys == b.Keys && forall k :: k in a ==> RectNow(a[k]) == RectNow(b[k])
  }

  lemma SamePlacesSelf(widgets: map<int, Widget>)
    ensures SamePlaces(widgets, widgets)
  {
  }

  lemma SamePlacesUpdate(a: map<int, Widget>, b: map<int, Widget>, id: int, t: Widget)
    requires SamePlaces(a, b) && id in b && RectNow(t) == RectNow(b[id])
    ensures SamePlaces(a, b[id := t])
  {
  }

  ghost predicate UniqueLeafAt(widgets: map<int, Widget>, x: int, y: int) {
    forall a, b :: a in widgets && b in widgets && LeafAt(widgets[a], x, y) && LeafAt(widgets[b], x, y) ==> a == b
  }

  /** A layout leaves at most one leaf under every point. */
  lemma LaidOutUnique(s: Scene, widgets: map<int, Widget>, x: int, y: int)
    requires Tree(s.widgets) && AllLaidOut(s, widgets)
    ensures UniqueLeafAt(widgets, x, y)
  {
    hide Tree, AllLaidOut;
    forall a, b | a in widgets && b in widgets && LeafAt(widgets[a], x, y) && LeafAt(widgets[b], x, y)
      ensures a == b
    {
      HitUnique(s, widgets, a, b, x, y);
    }
  }

  lemma UniqueKept(a: map<int, Widget>, b: map<int, Widget>, x: int, y: int)
    requires UniqueLeafAt(a, x, y) && SameStructure(a, b) && SamePlaces(a, b)
    ensures UniqueLeafAt(b, x, y)
  {
    forall k | k in b
      ensures LeafAt(b[k], x, y) <==> LeafAt(a[k], x, y)
    {
      assert SameByUser(a[k], b[k]) && RectNow(a[k]) == RectNow(b[k]);
    }
  }

  /** The leaf found under a point is the only one. */
  lemma HitIs(widgets: map<int, Widget>, x: int, y: int, id: int, k: int)
    requires UniqueLeafAt(widgets, x, y) && 0 !in widgets
    requires id != 0 ==> id in widgets && LeafAt(widgets[id], x, y)
    requires id == 0 ==> forall j :: j in widgets ==> !LeafAt(widgets[j], x, y)
    ensures k in widgets && LeafAt(widgets[k], x, y) <==> k == id && id != 0
  {
  }

  ghost function LaidWidgets(s: Scene): map<int, Widget>
    requires Tree(s.widgets)
  {
    map k | k in s.widgets :: LaidOut(s, k)
  }

  lemma LaidWidgetsAre(s: Scene, after: map<int, Widget>)
    requires Tree(s.widgets) && AllLaidOut(s, after)
    ensures after == LaidWidgets(s)
  {
    hide LaidOut, Tree;
  }

  function ListBoxOf(t: Widget, windowHeight: int): Rect {
    var boxHeight := VisibleChoices(t) * ITEM_HEIGHT + 2;
    var below := t.y + t.h;
    Rect(t.x, if below + boxHeight > windowHeight && t.y - boxHeight >= 0 then t.y - boxHeight else below,
         t.w, boxHeight)
  }

  /** An open list is right below its Select if it fits the window there or has no room
      above, and else right above it; it is as wide, and shows up to eight choices. */
  lemma ListBoxPlaced(t: Widget, windowHeight: int)
    ensures var r := ListBoxOf(t, windowHeight);
            && r.x == t.x && r.w == t.w && (r.y == t.y + t.h || r.y + r.h == t.y)
            && r.h == 24 * (if |t.items| == 0 then 1 else if |t.items| > 8 then 8 else |t.items|) + 2
            && (t.y + t.h + r.h <= windowHeight || t.y - r.h < 0 ==> r.y == t.y + t.h)
            && (t.y + t.h + r.h > windowHeight && t.y - r.h >= 0 ==> r.y + r.h == t.y)
  {
  }

  lemma SameListBox(a: Widget, b: Widget, windowHeight: int)
    requires b == a.(listScroll := b.listScroll)
    ensures ListBoxOf(a, windowHeight) == ListBoxOf(b, windowHeight)
  {
  }

  /** A window with every widget, and the open list, where the layout puts it. */
  ghost function PlacedWindow(w: Window, measure: Text -> nat): Window
    requires Tree(w.widgets)
  {
    var laid := LaidWidgets(Scene(w.widgets, measure, w.width, w.height));
    w.(widgets := laid, list := if w.popup in laid then ListBoxOf(laid[w.popup], w.height) else w.list)
  }
}
