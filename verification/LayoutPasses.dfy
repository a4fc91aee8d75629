/** The bookkeeping of the two layout passes over a widget table: each visits
    the widgets below a Container once, child by child. */
module LayoutPasses {
  import opened Layout
  import opened TextArea
  import opened Widgets

  /** a and b differ in their place, size and scroll only. */
  predicate SameShape(a: Widget, b: Widget) {
    b == a.(x := b.x, y := b.y, w := b.w, h := b.h, natW := b.natW, natH := b.natH, grows := b.grows,
            scrollX := b.scrollX, scrollY := b.scrollY)
  }

  ghost predicate SameShapes(a: map<int, Widget>, b: map<int, Widget>) {
    a.Keys == b.Keys && forall k :: k in a ==> SameShape(a[k], b[k])
  }

  ghost function Measured(s: Scene, k: int, t: Widget): Widget
    requires Tree(s.widgets) && k in s.widgets
  {
    var size := NatSize(s, k);
    t.(natW := size.w, natH := size.h, grows := size.grows)
  }

  ghost function PlacedAt(t: Widget, r: Rect): Widget {
    var placed := t.(x := r.x, y := r.y, w := r.w, h := r.h);
    if t.Container() then placed else Clamped(placed)
  }

  /** A widget after the layout. */
  ghost function LaidOut(s: Scene, k: int): Widget
    requires Tree(s.widgets) && k in s.widgets
  {
    PlacedAt(Measured(s, k, s.widgets[k]), RectOf(s, k))
  }

  // ---- what the passes compute -----------------------------------------------

  lemma ShapeOf(a: map<int, Widget>, b: map<int, Widget>, id: int)
    requires SameShapes(a, b) && id in a
    ensures a.Keys == b.Keys && SameShape(a[id], b[id])
  {
  }

  lemma ChildIsYounger(widgets: map<int, Widget>, id: int, i: nat)
    requires Tree(widgets) && id in widgets && i < |widgets[id].children|
    ensures widgets[id].children[i] in widgets && id < widgets[id].children[i] <= |widgets|
  {
  }

  lemma ShapesUpdated(a: map<int, Widget>, b: map<int, Widget>, id: int, t: Widget)
    requires SameShapes(a, b) && id in b && SameShape(b[id], t)
    ensures SameShapes(a, b[id := t])
  {
  }

  /** What one pass does to each widget it visits. */
  type Pass = (int, Widget) -> Widget

  ghost function MeasurePass(s: Scene): Pass {
    (k, t) => if Tree(s.widgets) && k in s.widgets then Measured(s, k, t) else t
  }

  ghost function PlacePass(s: Scene): Pass {
    (k, t) => if Tree(s.widgets) && k in s.widgets then PlacedAt(t, RectOf(s, k)) else t
  }

  /** The pass has visited the widget `id` and everything below it, once each. */
  ghost predicate PassedBelow(tree: map<int, Widget>, f: Pass, before: map<int, Widget>, after: map<int, Widget>,
                              id: int)
    requires Tree(tree) && id in tree
  {
    && before.Keys == after.Keys == tree.Keys
    && forall k :: k in after ==> after[k] == if Above(tree, id, k) then f(k, before[k]) else before[k]
  }

  /** The pass has visited everything below the first n children of `id`. */
  ghost predicate PassedChildren(tree: map<int, Widget>, f: Pass, before: map<int, Widget>, after: map<int, Widget>,
                                 id: int, n: nat)
    requires Tree(tree) && id in tree && n <= |tree[id].children|
  {
    && before.Keys == after.Keys == tree.Keys
    && forall k :: k in after ==> after[k] == if AboveAny(tree, id, n, k) then f(k, before[k]) else before[k]
  }

  lemma NothingPassed(tree: map<int, Widget>, f: Pass, widgets: map<int, Widget>, id: int)
    requires Tree(tree) && id in tree && widgets.Keys == tree.Keys
    ensures PassedChildren(tree, f, widgets, widgets, id, 0)
  {
  }

  lemma PassedNext(tree: map<int, Widget>, f: Pass, start: map<int, Widget>, before: map<int, Widget>,
                   after: map<int, Widget>, id: int, n: nat)
    requires Tree(tree) && id in tree && n < |tree[id].children| && tree[id].children[n] in tree
    requires PassedChildren(tree, f, start, before, id, n) && PassedBelow(tree, f, before, after, tree[id].children[n])
    ensures PassedChildren(tree, f, start, after, id, n + 1)
  {
    hide Above, AboveAny, Tree;
    forall k | k in after
      ensures after[k] == if AboveAny(tree, id, n + 1, k) then f(k, start[k]) else start[k]
    {
      NextChildApart(tree, id, n, k);
    }
  }

  lemma PassedWhole(tree: map<int, Widget>, f: Pass, start: map<int, Widget>, before: map<int, Widget>,
                    after: map<int, Widget>, id: int)
    requires Tree(tree) && id in tree && id in before
    requires PassedChildren(tree, f, start, before, id, |tree[id].children|)
    requires after == before[id := f(id, before[id])]
    ensures PassedBelow(tree, f, start, after, id)
  {
    hide Above, AboveAny, Tree;
    forall k | k in after
      ensures after[k] == if Above(tree, id, k) then f(k, start[k]) else start[k]
    {
      BelowThroughChildren(tree, id, k);
    }
  }

  /** The same, for a pass that visits a widget before what is below it. */
  lemma PassedAround(tree: map<int, Widget>, f: Pass, start: map<int, Widget>, begun: map<int, Widget>,
                     after: map<int, Widget>, id: int)
    requires Tree(tree) && id in tree && id in start
    requires begun == start[id := f(id, start[id])]
    requires PassedChildren(tree, f, begun, after, id, |tree[id].children|)
    ensures PassedBelow(tree, f, start, after, id)
  {
    hide Above, AboveAny, Tree;
    forall k | k in after
      ensures after[k] == if Above(tree, id, k) then f(k, start[k]) else start[k]
    {
      BelowThroughChildren(tree, id, k);
      BelowThroughChildren(tree, id, id);
    }
  }

  ghost predicate AllMeasured(s: Scene, widgets: map<int, Widget>)
    requires Tree(s.widgets)
  {
    && widgets.Keys == s.widgets.Keys
    && forall k :: k in widgets ==> Size(widgets[k].natW, widgets[k].natH, widgets[k].grows) == NatSize(s, k)
  }

  lemma MeasuredSize(s: Scene, widgets: map<int, Widget>, k: int)
    requires Tree(s.widgets) && AllMeasured(s, widgets) && k in s.widgets
    ensures k in widgets && Size(widgets[k].natW, widgets[k].natH, widgets[k].grows) == NatSize(s, k)
  {
  }

  lemma PlaceUpdated(s: Scene, before: map<int, Widget>, id: int, t: Widget)
    requires Tree(s.widgets) && SameShapes(s.widgets, before) && AllMeasured(s, before) && id in before
    requires t == before[id].(x := t.x, y := t.y, w := t.w, h := t.h)
    ensures SameShapes(s.widgets, before[id := t]) && AllMeasured(s, before[id := t])
  {
    hide Tree, NatSize;
  }

  lemma PlaceKeeps(s: Scene, before: map<int, Widget>, after: map<int, Widget>, id: int)
    requires Tree(s.widgets) && id in s.widgets && SameShapes(s.widgets, before) && AllMeasured(s, before)
    requires PassedBelow(s.widgets, PlacePass(s), before, after, id)
    ensures SameShapes(s.widgets, after) && AllMeasured(s, after)
  {
    hide Tree, NatSize, RectOf, Above;
    forall k | k in after
      ensures SameShape(s.widgets[k], after[k])
      ensures Size(after[k].natW, after[k].natH, after[k].grows) == NatSize(s, k)
    {
      assert SameShape(s.widgets[k], before[k]);
    }
  }

  lemma SlotAsPlaced(a: Widget, b: Widget, r: Rect, sizes: seq<Size>, i: nat)
    requires i < |sizes| && SameContainer(a, b)
    ensures Slot(a, r, sizes, i) ==
              if b.kind == Column then
                Rect(r.x + b.padding, r.y + b.padding + MainStart(b, r, sizes, i), CrossSize(b, r, sizes, i),
                     MainSize(b, r, sizes, i))
              else
                Rect(r.x + b.padding + MainStart(b, r, sizes, i),
                     r.y + b.padding + Truncated(InnerCross(b, r) - CrossSize(b, r, sizes, i), 2),
                     MainSize(b, r, sizes, i), CrossSize(b, r, sizes, i))
  {
    MainStartSame(a, b, r, sizes, i);
    MainSizeSame(a, b, r, sizes, i);
    hide MainStart, MainSize;
  }

  predicate SameContainer(a: Widget, b: Widget) {
    a.kind == b.kind && a.padding == b.padding && a.spacing == b.spacing
  }

  lemma MainSizeSame(a: Widget, b: Widget, r: Rect, sizes: seq<Size>, i: nat)
    requires i < |sizes| && SameContainer(a, b)
    ensures MainSize(a, r, sizes, i) == MainSize(b, r, sizes, i)
  {
  }

  lemma {:induction false} MainStartSame(a: Widget, b: Widget, r: Rect, sizes: seq<Size>, i: nat)
    requires i <= |sizes| && SameContainer(a, b)
    ensures MainStart(a, r, sizes, i) == MainStart(b, r, sizes, i)
  {
    if i > 0 {
      MainStartSame(a, b, r, sizes, i - 1);
      MainSizeSame(a, b, r, sizes, i - 1);
      hide MainSize;
    }
  }

  lemma NaturalOfShape(a: Widget, b: Widget, measure: Text -> nat)
    requires SameShape(a, b)
    ensures Natural(a, measure, []) == Natural(b, measure, [])
  {
  }

  lemma LeafPassed(s: Scene, f: Pass, widgets: map<int, Widget>, id: int)
    requires Tree(s.widgets) && id in s.widgets && widgets.Keys == s.widgets.Keys && !s.widgets[id].Container()
    ensures s.widgets[id].children == [] && NatSize(s, id) == Natural(s.widgets[id], s.measure, [])
    ensures PassedChildren(s.widgets, f, widgets, widgets, id, |s.widgets[id].children|)
  {
  }

  lemma NatSizeOfContainer(s: Scene, id: int)
    requires Tree(s.widgets) && id in s.widgets && s.widgets[id].Container()
    ensures var t, sizes := s.widgets[id], ChildSizes(s, id);
            var main, cross := Extent(t.kind, sizes, t.spacing) + 2 * t.padding, Widest(t.kind, sizes) + 2 * t.padding;
            NatSize(s, id) ==
              if t.kind == Column then Size(cross, main, AnyGrows(sizes)) else Size(main, cross, AnyGrows(sizes))
  {
    hide Natural, Tree, Extent, Widest;
    NaturalOfContainer(s.widgets[id], s.measure, ChildSizes(s, id));
  }
}
