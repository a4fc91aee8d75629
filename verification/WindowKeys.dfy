/** The keyboard: typing and editing, navigation, and moving the focus. */
module WindowKeys {
  import opened Arithmetic
  import opened Options
  import opened TextArea
  import opened Widgets
  import opened WindowClicks
  import opened WindowPointer
  import opened WindowState

  /** What a key does to a one-line text field. */
  function EditedLine(text: Text, caret: nat, key: Key): Edit
    requires caret <= |text|
  {
    match key
    case Backspace =>
      if caret > 0 then Edit(Deleted(text, caret - 1), caret - 1, true) else Edit(text, caret, false)
    case Delete =>
      if caret < |text| then Edit(Deleted(text, caret), caret, true) else Edit(text, caret, false)
    case ArrowLeft => Edit(text, Max(caret - 1, 0), false)
    case ArrowRight => Edit(text, Min(caret + 1, |text|), false)
    case Home => Edit(text, 0, false)
    case End => Edit(text, |text|, false)
    case _ => Edit(text, caret, false)
  }

  /** A one-line field edits its line as a TextArea would. */
  lemma LineIsArea(text: Text, caret: nat, key: Key)
    requires caret <= |text| <= MAX_AREA_RUNES && NEWLINE !in text
    requires key in {Backspace, Delete, ArrowLeft, ArrowRight, Home, End, OtherKey}
    ensures EditedLine(text, caret, key) == EditedArea(text, caret, key)
  {
    hide Lines, LineStart;
    OneLine(text);
    OneLine(text[..caret]);
    assert PositionOf(text, caret) == (0, caret);
    FirstLineStarts([text]);
  }

  lemma OneLine(text: Text)
    requires NEWLINE !in text
    ensures Lines(text) == [text]
  {
    LinesJoin([text]);
  }

  lemma FirstLineStarts(lines: seq<Text>)
    ensures LineStart(lines, 0) == 0
  {
  }

  /** The typed runes a text field takes: no control characters but a
      TextArea's newline, and valid code points only. */
  predicate Typable(r: Rune, area: bool) {
    ((r == NEWLINE && area) || (r >= 0x20 && r != 0x7F)) && ValidRune(r)
  }

  function Typables(runes: seq<Rune>, area: bool): seq<Rune> {
    if runes == [] then [] else
      var before, last := Typables(runes[..|runes| - 1], area), runes[|runes| - 1];
      if Typable(last, area) then before + [last] else before
  }

  lemma {:induction false} TypablesAdd(a: seq<Rune>, b: seq<Rune>, area: bool)
    ensures Typables(a + b, area) == Typables(a, area) + Typables(b, area)
    decreases |b|
  {
    if b == [] {
      assert a + b == a;
    } else {
      var rest, last := b[..|b| - 1], b[|b| - 1];
      TypablesAdd(a, rest, area);
      assert (a + b)[..|a + b| - 1] == a + rest && (a + b)[|a + b| - 1] == last;
    }
  }

  /** Printable text is typed as it is. */
  lemma {:induction false} PrintableTypes(runes: seq<Rune>, area: bool)
    requires forall r :: r in runes ==> r >= 32 && r != 127 && ValidRune(r)
    ensures Typables(runes, area) == runes
  {
    if runes != [] {
      var rest, last := runes[..|runes| - 1], runes[|runes| - 1];
      assert forall r :: r in rest ==> r in runes;
      PrintableTypes(rest, area);
      assert last in runes && runes == rest + [last];
    }
  }

  /** Nothing else is: no control character but a TextArea's newline, and no invalid rune. */
  lemma {:induction false} OnlyPrintable(runes: seq<Rune>, area: bool)
    ensures forall r :: r in Typables(runes, area) ==>
              ValidRune(r) && ((area && r == 10) || (r >= 32 && r != 127))
  {
    if runes != [] {
      OnlyPrintable(runes[..|runes| - 1], area);
    }
  }

  function Take(s: seq<Rune>, n: int): seq<Rune> {
    if n <= 0 then [] else if n >= |s| then s else s[..n]
  }

  /** Typing inserts, at the caret, as many of the typable runes as fit. */
  function TypedText(t: Widget, runes: seq<Rune>): seq<Rune> {
    Take(Typables(runes, t.kind == AreaInput), t.Limit() - |t.text|)
  }

  /** Printable text that fits is typed whole, and of longer text the beginning that fits. */
  lemma PrintableFits(t: Widget, runes: seq<Rune>)
    requires |t.text| <= t.Limit() && forall r :: r in runes ==> r >= 32 && r != 127 && ValidRune(r)
    ensures |t.text| + |runes| <= t.Limit() ==> TypedText(t, runes) == runes
    ensures |t.text| + |runes| > t.Limit() ==> TypedText(t, runes) == runes[..t.Limit() - |t.text|]
  {
    PrintableTypes(runes, t.kind == AreaInput);
  }

  // ---- typing and editing -------------------------------------------------------------------

  /** A text field after typing: what fits goes in at the caret, and shows. */
  function Typed(t: Widget, runes: seq<Rune>): Widget
    requires 0 <= t.caret <= |t.text|
  {
    var typed := TypedText(t, runes);
    if typed == [] then t else
      CaretRevealed(t.(text := t.text[..t.caret] + typed + t.text[t.caret..], caret := t.caret + |typed|))
  }

  /** A text field after an editing or caret key. */
  function Keyed(t: Widget, key: Key): Widget
    requires 0 <= t.caret <= |t.text| <= t.Limit()
  {
    if t.kind == AreaInput then
      var e := EditedArea(t.text, t.caret, key);
      EditRefinesView(t.text, t.caret, key);
      if key == OtherKey then t else CaretRevealed(t.(text := e.text, caret := e.caret))
    else
      var e := EditedLine(t.text, t.caret, key);
      t.(text := e.text, caret := e.caret)
  }

  predicate TakesText(t: Widget) {
    t.TextField() || t.kind == AreaInput
  }

  /** A text field with another text and caret, shown. */
  lemma TextInside(t: Widget, text: Text, caret: nat)
    requires WidgetInside(t) && TakesText(t) && caret <= |text| <= t.Limit()
    ensures var r := CaretRevealed(t.(text := text, caret := caret));
            && WidgetInside(r) && SameByUser(t, r) && SameNodeFields(t, r) && r.listScroll == t.listScroll
            && r.text == text && (t.kind != AreaInput ==> r == t.(text := text, caret := caret))
            && (ReadingOf(r) == ReadingOf(t) <==> text == t.text)
  {
  }

  lemma TypedInside(t: Widget, runes: seq<Rune>)
    requires WidgetInside(t) && TakesText(t)
    ensures var r := Typed(t, runes);
            && WidgetInside(r) && SameByUser(t, r) && SameNodeFields(t, r) && r.listScroll == t.listScroll
            && (ReadingOf(r) == ReadingOf(t) <==> r == t) && (r == t <==> TypedText(t, runes) == [])
  {
    var typed := TypedText(t, runes);
    if typed != [] {
      assert |t.text[..t.caret] + typed + t.text[t.caret..]| == |t.text| + |typed|;
    }
  }

  /** A key changes a line by one rune at the caret at most, and the caret stays inside. */
  lemma LineEditFits(text: Text, caret: nat, key: Key)
    requires caret <= |text|
    ensures var e := EditedLine(text, caret, key);
            && 0 <= e.caret <= |e.text| <= |text| && (e.changed <==> e.text != text)
            && (e.changed ==> |e.text| == |text| - 1)
  {
  }

  lemma KeyedInside(t: Widget, key: Key)
    requires WidgetInside(t) && TakesText(t)
    ensures var r := Keyed(t, key);
            && WidgetInside(r) && SameByUser(t, r) && SameNodeFields(t, r) && r.listScroll == t.listScroll
            && (ReadingOf(r) == ReadingOf(t) <==> r.text == t.text)
  {
    hide EditedArea, EditedLine, CaretRevealed, WidgetInside, ReadingOf;
    InsideFacts(t);
    if t.kind == AreaInput {
      EditRefinesView(t.text, t.caret, key);
      var e := EditedArea(t.text, t.caret, key);
      TextInside(t, e.text, e.caret);
    } else {
      var e := EditedLine(t.text, t.caret, key);
      LineEditFits(t.text, t.caret, key);
      TextInside(t, e.text, e.caret);
    }
  }

  /** Typing one more rune at the end of what was typed so far. */
  lemma TypingExtends(text: Text, caret: nat, before: seq<Rune>, rune: Rune)
    requires caret <= |text|
    ensures var typed := text[..caret] + before + text[caret..];
            Inserted(typed, caret + |before|, rune) == text[..caret] + (before + [rune]) + text[caret..]
  {
  }

  /** Types runes one by one: control characters, invalid code points and
      whatever no longer fits are skipped. */
  method TypeRunes(t: Widget, runes: seq<Rune>) returns (changed: bool, target: Widget)
    requires 0 <= t.caret <= |t.text| <= t.Limit()
    ensures changed == (TypedText(t, runes) != [])
    ensures target == t.(text := t.text[..t.caret] + TypedText(t, runes) + t.text[t.caret..],
                         caret := t.caret + |TypedText(t, runes)|)
    ensures Typed(t, runes) == if changed then CaretRevealed(target) else t
  {
    hide Typable, CaretRevealed, TypedText, Typed;
    target, changed := t, false;
    NothingTyped(t);
    ghost var typed: seq<Rune> := [];
    assert t.text == t.text[..t.caret] + [] + t.text[t.caret..];
    for i := 0 to |runes|
      invariant typed == TypedText(t, runes[..i]) && changed == (typed != [])
      invariant target == t.(text := t.text[..t.caret] + typed + t.text[t.caret..], caret := t.caret + |typed|)
    {
      TypedNext(t, runes, i);
      var rune := runes[i];
      if Typable(rune, t.kind == AreaInput) && |target.text| < t.Limit() {
        TypingExtends(t.text, t.caret, typed, rune);
        target := target.(text := Inserted(target.text, target.caret, rune), caret := target.caret + 1);
        typed := typed + [rune];
        changed := true;
      }
    }
    assert runes[..|runes|] == runes;
    TypedShown(t, runes, target);
  }

  lemma NothingTyped(t: Widget)
    ensures TypedText(t, []) == []
  {
  }

  lemma TypedNext(t: Widget, runes: seq<Rune>, i: nat)
    requires i < |runes| && |t.text| <= t.Limit()
    ensures var before := TypedText(t, runes[..i]);
            TypedText(t, runes[..i + 1]) ==
            if Typable(runes[i], t.kind == AreaInput) && |t.text| + |before| < t.Limit()
            then before + [runes[i]] else before
  {
    hide Typable;
    assert runes[..i + 1][..i] == runes[..i];
  }

  lemma TypedShown(t: Widget, runes: seq<Rune>, target: Widget)
    requires 0 <= t.caret <= |t.text|
    requires target == t.(text := t.text[..t.caret] + TypedText(t, runes) + t.text[t.caret..],
                          caret := t.caret + |TypedText(t, runes)|)
    ensures Typed(t, runes) == if TypedText(t, runes) != [] then CaretRevealed(target) else t
  {
    hide TypedText, CaretRevealed;
  }

  /** A key in a one-line text field. */
  method EditLine(t: Widget, key: Key) returns (changed: bool, target: Widget)
    requires 0 <= t.caret <= |t.text| <= t.Limit() && t.kind != AreaInput
    ensures target == Keyed(t, key) && changed == (target.text != t.text)
  {
    target, changed := t, false;
    match key {
      case Backspace =>
        if t.caret > 0 {
          target := t.(text := Deleted(t.text, t.caret - 1), caret := t.caret - 1);
          changed := true;
        }
      case Delete =>
        if t.caret < |t.text| {
          target := t.(text := Deleted(t.text, t.caret));
          changed := true;
        }
      case ArrowLeft => target := t.(caret := Max(t.caret - 1, 0));
      case ArrowRight => target := t.(caret := Min(t.caret + 1, |t.text|));
      case Home => target := t.(caret := 0);
      case End => target := t.(caret := |t.text|);
      case _ =>
    }
  }

  /** A key in a TextArea. */
  method EditArea(t: Widget, key: Key) returns (changed: bool, target: Widget)
    requires 0 <= t.caret <= |t.text| <= t.Limit() && t.kind == AreaInput
    ensures target == Keyed(t, key) && changed == (target.text != t.text)
  {
    hide CaretRevealed, EditedArea;
    EditRefinesView(t.text, t.caret, key);
    var e := AreaKey(t.text, t.caret, key);
    if key == OtherKey {
      return false, t;
    }
    changed := e.changed;
    target := CaretRevealed(t.(text := e.text, caret := e.caret));
  }

  method AreaKey(text: Text, caret: nat, key: Key) returns (e: Edit)
    requires caret <= |text|
    ensures e == EditedArea(text, caret, key)
  {
    hide PositionOf, OffsetOf, Lines, LineStart;
    e := Edit(text, caret, false);
    match key {
      case Enter =>
        if |text| < MAX_AREA_RUNES {
          e := Edit(Inserted(text, caret, NEWLINE), caret + 1, true);
        }
      case Backspace =>
        if caret > 0 {
          e := Edit(Deleted(text, caret - 1), caret - 1, true);
        }
      case Delete =>
        if caret < |text| {
          e := Edit(Deleted(text, caret), caret, true);
        }
      case _ =>
        var moved := MoveCaret(text, caret, key);
        e := Edit(text, moved, false);
    }
  }

  /** Where a caret key moves a TextArea's caret. */
  method MoveCaret(text: Text, from: nat, key: Key) returns (caret: int)
    requires from <= |text| && !key.Enter? && !key.Backspace? && !key.Delete?
    ensures EditedArea(text, from, key) == Edit(text, caret, false)
  {
    hide PositionOf, OffsetOf, Lines, LineStart;
    var line, column := AreaPosition(text, from);
    caret := from;
    match key {
      case ArrowLeft => caret := Max(caret - 1, 0);
      case ArrowRight => caret := Min(caret + 1, |text|);
      case ArrowUp =>
        caret := AreaOffset(text, line - 1, column);
        if line == 0 {
          caret := 0;
        }
      case ArrowDown =>
        var lines := AreaLines(text);
        caret := AreaOffset(text, line + 1, column);
        if line == |lines| - 1 {
          caret := |text|;
        }
      case Home => caret := AreaOffset(text, line, 0);
      case End => caret := AreaOffset(text, line, 0x4000_0000);
      case PageUp => caret := AreaOffset(text, line - PAGE_ITEMS, column);
      case PageDown => caret := AreaOffset(text, line + PAGE_ITEMS, column);
      case _ =>
    }
  }

  // ---- navigation ---------------------------------------------------------------------------

  /** Moves an index among `count` entries; None when the key does not navigate. */
  function StepIndex(current: int, count: nat, key: Key): (next: Option<int>)
    ensures next.Some? <==> key in {ArrowUp, ArrowDown, Home, End, PageUp, PageDown}
    ensures next.Some? && -1 <= current < count ==> -1 <= next.value < count
    ensures next.Some? && -1 <= current < count && count > 0 ==> 0 <= next.value
    ensures next.Some? && 0 <= current < count && key in {ArrowUp, PageUp, Home} ==> next.value <= current
    ensures next.Some? && 0 <= current < count && key in {ArrowDown, PageDown, End} ==> next.value >= current
  {
    match key
    case ArrowUp => Some(if count == 0 then -1 else if current < 0 then 0 else Max(current - 1, 0))
    case ArrowDown => Some(if count == 0 then -1 else Min(current + 1, count - 1))
    case Home => Some(if count == 0 then -1 else 0)
    case End => Some(if count == 0 then -1 else count - 1)
    case PageUp => Some(if count == 0 then -1 else Max(current - PAGE_ITEMS, 0))
    case PageDown => Some(if count == 0 then -1 else Min(Max(current, 0) + PAGE_ITEMS, count - 1))
    case _ => None
  }

  predicate Navigates(key: Key) {
    key in {ArrowUp, ArrowDown, Home, End, PageUp, PageDown}
  }

  /** Where n presses of a key lead. */
  function Stepped(current: int, count: nat, key: Key, n: nat): int
    requires Navigates(key)
  {
    if n == 0 then current else StepIndex(Stepped(current, count, key, n - 1), count, key).value
  }

  /** From no entry, k + 1 times ArrowDown reaches entry k, and the last entry is the end. */
  lemma {:induction false} DownReaches(count: nat, n: nat)
    requires count > 0
    ensures Stepped(-1, count, ArrowDown, n) == if n < count then n - 1 else count - 1
  {
    if n > 0 {
      DownReaches(count, n - 1);
    }
  }

  /** From the last entry, k times ArrowUp goes k entries up, and the first entry is the end. */
  lemma {:induction false} UpReaches(count: nat, n: nat)
    requires count > 0
    ensures Stepped(count - 1, count, ArrowUp, n) == if n < count then count - 1 - n else 0
  {
    if n > 0 {
      UpReaches(count, n - 1);
    }
  }

  lemma {:induction false} SteppedFrom(current: int, count: nat, n: nat)
    requires 0 <= current < count
    ensures Stepped(current, count, ArrowDown, n) == Min(current + n, count - 1)
    ensures Stepped(current, count, ArrowUp, n) == Max(current - n, 0)
  {
    if n > 0 {
      SteppedFrom(current, count, n - 1);
    }
  }

  /** A page is six entries; Home and End are as far as the arrows go; and without a selection
      the keys start at the top, End excepted. */
  lemma PagesAndEnds(current: int, count: nat)
    requires 0 <= current < count
    ensures StepIndex(current, count, PageDown).value == Stepped(current, count, ArrowDown, 6)
    ensures StepIndex(current, count, PageUp).value == Stepped(current, count, ArrowUp, 6)
    ensures StepIndex(current, count, Home).value == Stepped(current, count, ArrowUp, count)
    ensures StepIndex(current, count, End).value == Stepped(current, count, ArrowDown, count)
    ensures forall key | Navigates(key) && key != End && key != PageDown :: StepIndex(-1, count, key).value == 0
    ensures StepIndex(-1, count, PageDown).value == StepIndex(0, count, PageDown).value
    ensures StepIndex(-1, count, End).value == count - 1
  {
    SteppedFrom(current, count, 6);
    SteppedFrom(current, count, count);
  }

  /** Nothing can be selected in an empty list. */
  lemma EmptySteps(current: int, key: Key)
    requires Navigates(key)
    ensures StepIndex(current, 0, key) == Some(-1)
  {
  }

  /** An open list after its highlight moved. */
  function Highlighted(t: Widget, index: int): Widget {
    ListRevealed(t.(highlight := index))
  }

  lemma HighlightedInside(t: Widget, index: int)
    requires WidgetInside(t) && -1 <= index < t.Count()
    ensures var r := Highlighted(t, index);
            SameContent(t, r) && ScrollInside(r) && r.highlight == index
            && (ListScrollInside(t) ==> ListScrollInside(r))
  {
    var r := Highlighted(t, index);
    assert ViewportOf(r) == ViewportOf(t);
  }

  /** A selecting widget after a navigation key: the highlight of its open list
      moves, or else its selection. */
  function Navigated(t: Widget, open: bool, key: Key): Widget
    requires Navigates(key)
  {
    var step := StepIndex(if open then t.highlight else t.selected, t.Count(), key);
    if open then Highlighted(t, step.value) else if step.value >= 0 then UserSelected(t, step.value) else t
  }

  // ---- moving the focus ---------------------------------------------------------------------

  /** The first focusable widget after the focus in creation order, wrapping around. */
  ghost predicate NextFocus(widgets: map<int, Widget>, focus: int, id: int) {
    && id in widgets && widgets[id].Focusable()
    && if id > focus then forall k :: k in widgets && widgets[k].Focusable() ==> k <= focus || k >= id
       else forall k :: k in widgets && widgets[k].Focusable() ==> id <= k <= focus
  }

  /** The last focusable widget before the focus; 0 counts as after every widget. */
  ghost predicate PreviousFocus(widgets: map<int, Widget>, focus: int, id: int) {
    && id in widgets && widgets[id].Focusable()
    && if id < focus then forall k :: k in widgets && widgets[k].Focusable() ==> k <= id || k >= focus
       else forall k :: k in widgets && widgets[k].Focusable() ==> focus <= k <= id
  }

  /** Shift+Tab undoes Tab from any focused widget, and Tab undoes Shift+Tab. */
  lemma FocusStepsInverse(widgets: map<int, Widget>, a: int, b: int)
    requires a in widgets && widgets[a].Focusable() && b in widgets && widgets[b].Focusable()
    ensures NextFocus(widgets, a, b) <==> PreviousFocus(widgets, b, a)
  {
  }

  /** There is exactly one next and one previous widget to focus. */
  lemma FocusStepUnique(widgets: map<int, Widget>, focus: int, a: int, b: int)
    requires (NextFocus(widgets, focus, a) && NextFocus(widgets, focus, b))
             || (PreviousFocus(widgets, focus, a) && PreviousFocus(widgets, focus, b))
    ensures a == b
  {
  }

  ghost predicate NoneFocusable(widgets: map<int, Widget>) {
    forall k :: k in widgets ==> !widgets[k].Focusable()
  }

  /** The index reached by `direction * step` places from `start` in a circle of n. */
  function Around(moved: int, n: int): (index: int)
    requires n > 0 && -n <= moved < 2 * n
    ensures index == if moved < 0 then moved + n else if moved >= n then moved - n else moved
  {
    QuotientAround(moved, n);
    var remainder := moved - Truncated(moved, n) * n;
    (remainder + n) % n
  }

  lemma QuotientAround(moved: int, n: int)
    requires n > 0 && -n <= moved < 2 * n
    ensures Truncated(moved, n) == if moved == -n then -1 else if moved >= n then 1 else 0
    ensures var index := if moved < 0 then moved + n else if moved >= n then moved - n else moved;
            (moved - Truncated(moved, n) * n + n) % n == index
  {
    var index := if moved < 0 then moved + n else if moved >= n then moved - n else moved;
    if moved < 0 {
      DivisionUnique(-moved, n, if moved == -n then 1 else 0);
      ModuloUnique(moved - Truncated(moved, n) * n + n, n, index, if moved == -n then 1 else 0);
    } else {
      DivisionUnique(moved, n, if moved >= n then 1 else 0);
      ModuloUnique(moved - Truncated(moved, n) * n + n, n, index, 1);
    }
  }

  /** How many steps the focus takes to reach widget k of n. */
  function StepsTo(focus: int, direction: int, k: int, n: int): int {
    if direction == 1 then (if k > focus then k - focus else k + n - focus)
    else
      var from := if focus == 0 then n + 1 else focus;
      if k < from then from - k else from - k + n
  }

  /** The focusable widget fewest steps away is the next one, or the previous one. */
  lemma StepReached(s: Window, direction: int, id: int)
    requires Whole(s) && (direction == 1 || direction == -1)
    requires id in s.widgets && s.widgets[id].Focusable()
    requires forall k :: k in s.widgets && s.widgets[k].Focusable() ==>
      StepsTo(s.focus, direction, k, s.next) >= StepsTo(s.focus, direction, id, s.next)
    ensures direction == 1 ==> NextFocus(s.widgets, s.focus, id)
    ensures direction == -1 ==> PreviousFocus(s.widgets, if s.focus == 0 then s.next + 1 else s.focus, id)
  {
    hide Whole, StepsTo;
    OrderFacts(s);
    PointerFacts(s);
    TreeFacts(s);
    var focus := if direction == -1 && s.focus == 0 then s.next + 1 else s.focus;
    forall k | k in s.widgets && s.widgets[k].Focusable()
      ensures Between(direction, focus, id, k)
    {
      FewestSteps(s.focus, direction, id, k, s.next);
    }
  }

  /** k is not passed on the way from the focus to id, in either direction. */
  predicate Between(direction: int, focus: int, id: int, k: int) {
    if direction == 1 then (if id > focus then k <= focus || k >= id else id <= k <= focus)
    else (if id < focus then k <= id || k >= focus else focus <= k <= id)
  }

  lemma FewestSteps(focus: int, direction: int, id: int, k: int, n: int)
    requires (direction == 1 || direction == -1) && 0 <= focus <= n && 1 <= id <= n && 1 <= k <= n
    requires StepsTo(focus, direction, k, n) >= StepsTo(focus, direction, id, n)
    ensures Between(direction, if direction == -1 && focus == 0 then n + 1 else focus, id, k)
  {
  }
}
