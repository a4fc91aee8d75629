/** A TextArea's text seen as lines: the caret as an offset and as a line and
    column, and the editing keys in both views. */
module TextArea {

  type Rune = int
  type Text = seq<Rune>
  type Position = (int, int)

  const NEWLINE: Rune := 10
  const MAX_AREA_RUNES: nat := 100_000
  const PAGE_ITEMS: int := 6

  function Clamp(i: int, low: int, high: int): (r: int)
    ensures low <= high ==> low <= r <= high
    ensures low <= i <= high ==> r == i
  {
    if (if i > low then i else low) < high then (if i > low then i else low) else high
  }

  // ---- lines -----------------------------------------------------------------

  /** The lines of a text, at least one. */
  function Lines(text: Text): (lines: seq<Text>)
    ensures lines != []
  {
    if text == [] then [[]] else
      var before, last := Lines(text[..|text| - 1]), text[|text| - 1];
      if last == NEWLINE then before + [[]] else before[|before| - 1 := before[|before| - 1] + [last]]
  }

  function Join(lines: seq<Text>): Text
    requires lines != []
  {
    if |lines| == 1 then lines[0] else Join(lines[..|lines| - 1]) + [NEWLINE] + lines[|lines| - 1]
  }

  ghost predicate Unbroken(lines: seq<Text>) {
    forall i :: 0 <= i < |lines| ==> NEWLINE !in lines[i]
  }

  /** Joining the lines with newlines gives the text back. */
  lemma {:induction false} JoinLines(text: Text)
    ensures Join(Lines(text)) == text && Unbroken(Lines(text))
  {
    if text != [] {
      var start, last := text[..|text| - 1], text[|text| - 1];
      JoinLines(start);
      var before, lines := Lines(start), Lines(text);
      if last == NEWLINE {
        assert lines[..|lines| - 1] == before;
      } else {
        assert lines[..|lines| - 1] == before[..|before| - 1];
      }
      assert text == start + [last];
    }
  }

  /** ... and no other unbroken lines do. */
  lemma {:induction false} LinesJoin(lines: seq<Text>)
    requires lines != [] && Unbroken(lines)
    ensures Lines(Join(lines)) == lines
    decreases |lines|, |lines[|lines| - 1]|
  {
    hide Lines, Join;
    var n := |lines| - 1;
    var last := lines[n];
    if last != [] {
      var shorter, rune := lines[n := last[..|last| - 1]], last[|last| - 1];
      assert rune != NEWLINE;
      LinesJoin(shorter);
      JoinLonger(shorter, rune);
      LinesLonger(Join(shorter), rune);
      assert last == last[..|last| - 1] + [rune];
      assert lines == shorter[n := shorter[n] + [rune]];
    } else if n > 0 {
      LinesJoin(lines[..n]);
      JoinBroken(lines[..n]);
      LinesLonger(Join(lines[..n]), NEWLINE);
      assert lines == lines[..n] + [[]];
    } else {
      assert lines == [[]];
      NothingJoined();
    }
  }

  lemma NothingJoined()
    ensures Join([[]]) == [] && Lines([]) == [[]]
  {
  }

  /** One more rune at the end of the last line. */
  lemma JoinLonger(lines: seq<Text>, rune: Rune)
    requires lines != []
    ensures var n := |lines| - 1; Join(lines[n := lines[n] + [rune]]) == Join(lines) + [rune]
  {
    var n := |lines| - 1;
    var longer := lines[n := lines[n] + [rune]];
    assert longer[..n] == lines[..n];
  }

  /** One more line, an empty one. */
  lemma JoinBroken(lines: seq<Text>)
    requires lines != []
    ensures Join(lines + [[]]) == Join(lines) + [NEWLINE]
  {
    assert (lines + [[]])[..|lines|] == lines;
  }

  lemma LinesLonger(text: Text, rune: Rune)
    ensures var before := Lines(text);
            Lines(text + [rune]) ==
            if rune == NEWLINE then before + [[]] else before[|before| - 1 := before[|before| - 1] + [rune]]
  {
    assert (text + [rune])[..|text|] == text;
  }

  /** The lines of a concatenation: the last and the first line run together. */
  function Glue(a: seq<Text>, b: seq<Text>): (lines: seq<Text>)
    requires a != [] && b != []
    ensures |lines| == |a| + |b| - 1
  {
    a[..|a| - 1] + [a[|a| - 1] + b[0]] + b[1..]
  }

  lemma {:induction false} LinesConcatenate(a: Text, b: Text)
    ensures Lines(a + b) == Glue(Lines(a), Lines(b))
  {
    if b == [] {
      assert a + b == a;
      var lines := Lines(a);
      assert lines[|lines| - 1] + [] == lines[|lines| - 1];
      assert lines == lines[..|lines| - 1] + [lines[|lines| - 1]];
    } else {
      var last, rest := b[|b| - 1], b[..|b| - 1];
      assert (a + b)[..|a + b| - 1] == a + rest;
      LinesConcatenate(a, rest);
      GlueExtends(Lines(a), Lines(rest), last);
    }
  }

  lemma GlueExtends(a: seq<Text>, b: seq<Text>, last: Rune)
    requires a != [] && b != []
    ensures Glue(a, b) + [[]] == Glue(a, b + [[]])
    ensures var g, n := Glue(a, b), |b| - 1;
            g[|g| - 1 := g[|g| - 1] + [last]] == Glue(a, b[n := b[n] + [last]])
  {
    var g, n := Glue(a, b), |b| - 1;
    if n == 0 {
      assert a[|a| - 1] + b[0] + [last] == a[|a| - 1] + (b[0] + [last]);
    }
  }

  method AreaLines(text: Text) returns (lines: seq<Text>)
    ensures lines == Lines(text)
  {
    lines := [[]];
    for i := 0 to |text|
      invariant lines == Lines(text[..i])
    {
      assert text[..i + 1][..i] == text[..i];
      if text[i] == NEWLINE {
        lines := lines + [[]];
        continue;
      }
      lines := lines[|lines| - 1 := lines[|lines| - 1] + [text[i]]];
    }
    assert text[..|text|] == text;
  }

  // ---- offsets and positions -------------------------------------------------

  /** The line and column, in runes, of the caret at an offset. */
  function PositionOf(text: Text, caret: int): Position
    requires 0 <= caret <= |text|
  {
    var lines := Lines(text[..caret]);
    (|lines| - 1, |lines[|lines| - 1]|)
  }

  /** The offset at which a line starts. */
  function LineStart(lines: seq<Text>, line: nat): nat
    requires line <= |lines|
  {
    if line == 0 then 0 else LineStart(lines, line - 1) + |lines[line - 1]| + 1
  }

  /** Where a line and a column lie in the text, each clamped first. */
  function OffsetOf(text: Text, line: int, column: int): int {
    var lines := Lines(text);
    var l := Clamp(line, 0, |lines| - 1);
    LineStart(lines, l) + Clamp(column, 0, |lines[l]|)
  }

  method AreaPosition(text: Text, caret: nat) returns (line: int, column: int)
    requires caret <= |text|
    ensures (line, column) == PositionOf(text, caret)
  {
    line, column := 0, 0;
    for i := 0 to caret
      invariant (line, column) == PositionOf(text, i)
    {
      assert text[..i + 1][..i] == text[..i];
      if text[i] == NEWLINE {
        line, column := line + 1, 0;
      } else {
        column := column + 1;
      }
    }
  }

  method AreaOffset(text: Text, line: int, column: int) returns (offset: int)
    ensures offset == OffsetOf(text, line, column)
  {
    var lines := AreaLines(text);
    var l := Clamp(line, 0, |lines| - 1);
    offset := 0;
    for i := 0 to l
      invariant offset == LineStart(lines, i)
    {
      offset := offset + |lines[i]| + 1;
    }
    offset := offset + Clamp(column, 0, |lines[l]|);
  }

  lemma {:induction false} LineStartPrefix(a: seq<Text>, b: seq<Text>, line: nat)
    requires line <= |a| && line <= |b| && a[..line] == b[..line]
    ensures LineStart(a, line) == LineStart(b, line)
  {
    if line > 0 {
      assert a[line - 1] == a[..line][line - 1] == b[..line][line - 1] == b[line - 1];
      assert a[..line - 1] == a[..line][..line - 1] == b[..line][..line - 1] == b[..line - 1];
      LineStartPrefix(a, b, line - 1);
    }
  }

  /** A text is as long as its last line's start and length. */
  lemma {:induction false} TextLength(text: Text)
    ensures var lines := Lines(text); |text| == LineStart(lines, |lines| - 1) + |lines[|lines| - 1]|
  {
    if text != [] {
      var before, lines := Lines(text[..|text| - 1]), Lines(text);
      TextLength(text[..|text| - 1]);
      assert lines[..|before| - 1] == before[..|before| - 1];
      LineStartPrefix(lines, before, |before| - 1);
    }
  }

  /** The text before and after a caret, as lines, share the caret's line. */
  lemma PositionSplits(text: Text, caret: int)
    requires 0 <= caret <= |text|
    ensures var (line, column) := PositionOf(text, caret);
            var lines, a, b := Lines(text), Lines(text[..caret]), Lines(text[caret..]);
            && 0 <= line < |lines| && 0 <= column <= |lines[line]|
            && lines == Glue(a, b) && line == |a| - 1
            && a[line] == lines[line][..column] && b[0] == lines[line][column..]
            && a[..line] == lines[..line] && b[1..] == lines[line + 1..]
            && caret == LineStart(lines, line) + column
  {
    LinesConcatenate(text[..caret], text[caret..]);
    assert text[..caret] + text[caret..] == text;
    TextLength(text[..caret]);
    LineStartPrefix(Lines(text), Lines(text[..caret]), |Lines(text[..caret])| - 1);
  }

  /** A caret's position leads back to its offset. */
  lemma OffsetOfPosition(text: Text, caret: int)
    requires 0 <= caret <= |text|
    ensures var (line, column) := PositionOf(text, caret); OffsetOf(text, line, column) == caret
  {
    PositionSplits(text, caret);
  }

  lemma {:induction false} LineStartOrder(lines: seq<Text>, line: nat, other: nat)
    requires line < other < |lines|
    ensures LineStart(lines, line) + |lines[line]| < LineStart(lines, other)
  {
    if line + 1 < other {
      LineStartOrder(lines, line, other - 1);
    }
  }

  lemma OffsetInText(text: Text, line: int, column: int)
    ensures 0 <= OffsetOf(text, line, column) <= |text|
  {
    var lines := Lines(text);
    var l, n := Clamp(line, 0, |lines| - 1), |lines| - 1;
    TextLength(text);
    if l < n {
      LineStartOrder(lines, l, n);
    }
  }

  /** An offset's position is the line and column it was made of, kept inside the text. */
  lemma PositionOfOffset(text: Text, line: int, column: int)
    ensures 0 <= OffsetOf(text, line, column) <= |text|
    ensures var l := Clamp(line, 0, |Lines(text)| - 1);
            PositionOf(text, OffsetOf(text, line, column)) == (l, Clamp(column, 0, |Lines(text)[l]|))
  {
    hide Lines, LineStart;
    OffsetInText(text, line, column);
    var lines, caret := Lines(text), OffsetOf(text, line, column);
    var l := Clamp(line, 0, |lines| - 1);
    var (p, q) := PositionOf(text, caret);
    PositionSplits(text, caret);
    PositionsDiffer(lines, l, Clamp(column, 0, |lines[l]|), p, q);
  }

  /** Different positions are different offsets. */
  lemma PositionsDiffer(lines: seq<Text>, l: nat, k: nat, p: nat, q: nat)
    requires l < |lines| && k <= |lines[l]| && p < |lines| && q <= |lines[p]|
    requires LineStart(lines, l) + k == LineStart(lines, p) + q
    ensures l == p && k == q
  {
    hide LineStart;
    if l < p {
      LineStartOrder(lines, l, p);
    } else if p < l {
      LineStartOrder(lines, p, l);
    }
  }

  // ---- editing keys ----------------------------------------------------------

  datatype Key =
    | Enter | Backspace | Delete
    | ArrowLeft | ArrowRight | ArrowUp | ArrowDown
    | Home | End | PageUp | PageDown
    | OtherKey

  datatype Edit = Edit(text: Text, caret: int, changed: bool)

  function Inserted(text: Text, at: nat, rune: Rune): Text
    requires at <= |text|
  {
    text[..at] + [rune] + text[at..]
  }

  function Deleted(text: Text, at: nat): Text
    requires at < |text|
  {
    text[..at] + text[at + 1..]
  }

  /** What a key does to a TextArea's text and caret. */
  function EditedArea(text: Text, caret: nat, key: Key): Edit
    requires caret <= |text|
  {
    var (line, column) := PositionOf(text, caret);
    match key
    case Enter =>
      if |text| < MAX_AREA_RUNES then Edit(Inserted(text, caret, NEWLINE), caret + 1, true)
      else Edit(text, caret, false)
    case Backspace =>
      if caret > 0 then Edit(Deleted(text, caret - 1), caret - 1, true) else Edit(text, caret, false)
    case Delete =>
      if caret < |text| then Edit(Deleted(text, caret), caret, true) else Edit(text, caret, false)
    case ArrowLeft => Edit(text, if caret - 1 > 0 then caret - 1 else 0, false)
    case ArrowRight => Edit(text, if caret + 1 < |text| then caret + 1 else |text|, false)
    case ArrowUp => Edit(text, if line == 0 then 0 else OffsetOf(text, line - 1, column), false)
    case ArrowDown =>
      Edit(text, if line == |Lines(text)| - 1 then |text| else OffsetOf(text, line + 1, column), false)
    case Home => Edit(text, OffsetOf(text, line, 0), false)
    case End => Edit(text, OffsetOf(text, line, 0x4000_0000), false)
    case PageUp => Edit(text, OffsetOf(text, line - PAGE_ITEMS, column), false)
    case PageDown => Edit(text, OffsetOf(text, line + PAGE_ITEMS, column), false)
    case OtherKey => Edit(text, caret, false)
  }

  /** Lines and a caret inside them: the editor as its user sees it. */
  datatype View = View(lines: seq<Text>, line: int, column: int)

  ghost predicate ViewInside(v: View) {
    0 <= v.line < |v.lines| && 0 <= v.column <= |v.lines[v.line]|
  }

  ghost function ViewOf(text: Text, caret: nat): View
    requires caret <= |text|
  {
    var (line, column) := PositionOf(text, caret);
    View(Lines(text), line, column)
  }

  ghost function Merged(lines: seq<Text>, line: nat): seq<Text>
    requires line + 1 < |lines|
  {
    lines[..line] + [lines[line] + lines[line + 1]] + lines[line + 2..]
  }

  ghost function WithoutColumn(lines: seq<Text>, line: nat, column: nat): seq<Text>
    requires line < |lines| && column < |lines[line]|
  {
    lines[line := Deleted(lines[line], column)]
  }

  ghost function AtLine(v: View, line: int): View
    requires v.lines != []
  {
    var l := Clamp(line, 0, |v.lines| - 1);
    v.(line := l, column := Clamp(v.column, 0, |v.lines[l]|))
  }

  /** The same keys on the view: Enter splits a line, Backspace and Delete
      remove a rune or join two lines, and the others move the caret. */
  ghost function EditedView(v: View, key: Key, room: bool): View
    requires ViewInside(v)
  {
    var current, last := v.lines[v.line], |v.lines| - 1;
    match key
    case Enter =>
      if room then
        View(v.lines[..v.line] + [current[..v.column], current[v.column..]] + v.lines[v.line + 1..], v.line + 1, 0)
      else v
    case Backspace =>
      if v.column > 0 then View(WithoutColumn(v.lines, v.line, v.column - 1), v.line, v.column - 1)
      else if v.line > 0 then View(Merged(v.lines, v.line - 1), v.line - 1, |v.lines[v.line - 1]|)
      else v
    case Delete =>
      if v.column < |current| then v.(lines := WithoutColumn(v.lines, v.line, v.column))
      else if v.line < last then v.(lines := Merged(v.lines, v.line))
      else v
    case ArrowLeft =>
      if v.column > 0 then v.(column := v.column - 1)
      else if v.line > 0 then v.(line := v.line - 1, column := |v.lines[v.line - 1]|)
      else v
    case ArrowRight =>
      if v.column < |current| then v.(column := v.column + 1)
      else if v.line < last then v.(line := v.line + 1, column := 0)
      else v
    case ArrowUp => if v.line == 0 then v.(column := 0) else AtLine(v, v.line - 1)
    case ArrowDown => if v.line == last then v.(column := |current|) else AtLine(v, v.line + 1)
    case Home => v.(column := 0)
    case End => v.(column := |current|)
    case PageUp => AtLine(v, v.line - PAGE_ITEMS)
    case PageDown => AtLine(v, v.line + PAGE_ITEMS)
    case OtherKey => v
  }

  /** Every key on the text is the same key on the view. */
  lemma EditRefinesView(text: Text, caret: nat, key: Key)
    requires caret <= |text| <= MAX_AREA_RUNES
    ensures ViewInside(ViewOf(text, caret))
    ensures var e := EditedArea(text, caret, key);
            && 0 <= e.caret <= |e.text| <= MAX_AREA_RUNES
            && (e.changed <==> e.text != text)
            && ViewOf(e.text, e.caret) == EditedView(ViewOf(text, caret), key, |text| < MAX_AREA_RUNES)
  {
    hide Lines, LineStart, PositionOf, ViewOf, EditedArea, EditedView, ViewInside;
    if key in {Enter, Backspace, Delete} {
      ChangeRefinesView(text, caret, key);
    } else {
      MoveRefinesView(text, caret, key);
    }
  }

  ghost predicate RefinesView(text: Text, caret: nat, key: Key)
    requires caret <= |text| <= MAX_AREA_RUNES
  {
    ViewInside(ViewOf(text, caret)) &&
    var e := EditedArea(text, caret, key);
    && 0 <= e.caret <= |e.text| <= MAX_AREA_RUNES
    && (e.changed <==> e.text != text)
    && ViewOf(e.text, e.caret) == EditedView(ViewOf(text, caret), key, |text| < MAX_AREA_RUNES)
  }

  lemma ChangeRefinesView(text: Text, caret: nat, key: Key)
    requires caret <= |text| <= MAX_AREA_RUNES && key in {Enter, Backspace, Delete}
    ensures RefinesView(text, caret, key)
  {
    hide Lines, LineStart, PositionOf;
    var v, room := ViewOf(text, caret), |text| < MAX_AREA_RUNES;
    PositionSplits(text, caret);
    NothingToDo(text, caret, key, room);
    hide ViewOf, EditedView;
    if key == Enter {
      if room {
        EnterSplitsLine(text, caret);
      }
    } else {
      RoomForEnterOnly(v, key, room);
      if key == Backspace && caret > 0 {
        BackspaceInView(text, caret);
      } else if key == Delete && caret < |text| {
        DeleteInView(text, caret);
      }
    }
  }

  /** Only Enter needs room. */
  lemma RoomForEnterOnly(v: View, key: Key, room: bool)
    requires ViewInside(v) && key != Enter
    ensures EditedView(v, key, room) == EditedView(v, key, true)
  {
    hide Merged, WithoutColumn, AtLine;
  }

  /** A key that finds nothing to do on the text finds nothing to do on the view. */
  lemma NothingToDo(text: Text, caret: nat, key: Key, room: bool)
    requires caret <= |text|
    ensures ViewInside(ViewOf(text, caret))
    ensures (key == Enter && !room) || (key == Backspace && caret == 0) || (key == Delete && caret == |text|) ==>
              EditedView(ViewOf(text, caret), key, room) == ViewOf(text, caret)
  {
    CaretAtEnd(text, caret);
    PositionSplits(text, caret);
    StartOfText(text);
    hide Lines, LineStart, PositionOf, Merged, WithoutColumn;
  }

  lemma BackspaceInView(text: Text, caret: nat)
    requires 0 < caret <= |text|
    ensures ViewInside(ViewOf(text, caret))
    ensures ViewOf(Deleted(text, caret - 1), caret - 1) == EditedView(ViewOf(text, caret), Backspace, true)
  {
    StepLeft(text, caret);
    DeleteInView(text, caret - 1);
    hide Lines, LineStart, PositionOf, ViewOf, Merged, WithoutColumn, Deleted;
  }

  lemma MoveRefinesView(text: Text, caret: nat, key: Key)
    requires caret <= |text| <= MAX_AREA_RUNES && key !in {Enter, Backspace, Delete}
    ensures RefinesView(text, caret, key)
  {
    if key in {ArrowLeft, ArrowRight} {
      StepRefinesView(text, caret, key);
    } else {
      JumpRefinesView(text, caret, key);
    }
  }

  lemma StepRefinesView(text: Text, caret: nat, key: Key)
    requires caret <= |text| <= MAX_AREA_RUNES && key in {ArrowLeft, ArrowRight}
    ensures RefinesView(text, caret, key)
  {
    hide Lines, LineStart, PositionOf, Merged, WithoutColumn, AtLine;
    PositionSplits(text, caret);
    if key == ArrowLeft {
      if caret > 0 {
        StepLeft(text, caret);
      } else {
        StartOfText(text);
      }
    } else {
      CaretAtEnd(text, caret);
      if caret < |text| {
        StepRight(text, caret);
      }
    }
  }

  lemma JumpRefinesView(text: Text, caret: nat, key: Key)
    requires caret <= |text| <= MAX_AREA_RUNES && key !in {Enter, Backspace, Delete, ArrowLeft, ArrowRight}
    ensures RefinesView(text, caret, key)
  {
    hide Lines, LineStart, PositionOf, Merged, WithoutColumn;
    PositionSplits(text, caret);
    var (line, column) := PositionOf(text, caret);
    match key {
      case ArrowUp =>
        if line > 0 { PositionOfOffset(text, line - 1, column); } else { StartOfText(text); }
      case ArrowDown =>
        if line < |Lines(text)| - 1 { PositionOfOffset(text, line + 1, column); } else { CaretAtEnd(text, |text|); }
      case Home => PositionOfOffset(text, line, 0);
      case End =>
        LineFits(text, line);
        PositionOfOffset(text, line, 0x4000_0000);
      case PageUp => PositionOfOffset(text, line - PAGE_ITEMS, column);
      case PageDown => PositionOfOffset(text, line + PAGE_ITEMS, column);
      case _ =>
    }
  }

  lemma StartOfText(text: Text)
    ensures PositionOf(text, 0) == (0, 0)
  {
  }

  lemma LineFits(text: Text, line: nat)
    requires line < |Lines(text)|
    ensures |Lines(text)[line]| <= |text|
  {
    var lines := Lines(text);
    TextLength(text);
    if line < |lines| - 1 {
      LineStartOrder(lines, line, |lines| - 1);
    }
  }

  /** One step left moves within the line, or to the end of the line before. */
  lemma StepLeft(text: Text, caret: nat)
    requires 0 < caret <= |text|
    ensures ViewInside(ViewOf(text, caret))
    ensures ViewOf(text, caret).column == 0 ==> ViewOf(text, caret).line > 0
    ensures ViewOf(text, caret - 1) == EditedView(ViewOf(text, caret), ArrowLeft, true)
  {
    hide Lines;
    PositionSplits(text, caret);
    var (line, column) := PositionOf(text, caret);
    if column > 0 {
      PositionOfOffset(text, line, column - 1);
    } else {
      PositionOfOffset(text, line - 1, |Lines(text)[line - 1]|);
    }
  }

  /** One step right undoes one step left. */
  lemma StepRight(text: Text, caret: nat)
    requires caret < |text|
    ensures ViewInside(ViewOf(text, caret))
    ensures ViewOf(text, caret + 1) == EditedView(ViewOf(text, caret), ArrowRight, true)
  {
    hide Lines, LineStart;
    PositionSplits(text, caret);
    CaretAtEnd(text, caret);
    StepLeft(text, caret + 1);
    CaretAtEnd(text, caret + 1);
  }

  /** The end of the text is the last column of the last line, and no other position is. */
  lemma CaretAtEnd(text: Text, caret: nat)
    requires caret <= |text|
    ensures var (line, column) := PositionOf(text, caret);
            && 0 <= line < |Lines(text)|
            && (caret == |text| <==> line == |Lines(text)| - 1 && column == |Lines(text)[line]|)
  {
    PositionSplits(text, caret);
    TextLength(text);
    var (line, column) := PositionOf(text, caret);
    if line < |Lines(text)| - 1 {
      LineStartOrder(Lines(text), line, |Lines(text)| - 1);
    }
  }

  lemma LinesAroundRune(a: Text, rune: Rune, b: Text)
    ensures Lines(a + [rune] + b)
         == if rune == NEWLINE then Lines(a) + Lines(b) else Glue(Lines(a), Glue([[rune]], Lines(b)))
  {
    hide Lines;
    LinesConcatenate(a, [rune] + b);
    LinesConcatenate([rune], b);
    OneRune(rune);
    assert a + [rune] + b == a + ([rune] + b);
    if rune == NEWLINE {
      GlueBreak(Lines(a), Lines(b));
    }
  }

  lemma OneRune(rune: Rune)
    ensures Lines([rune]) == if rune == NEWLINE then [[], []] else [[rune]]
  {
    assert [rune][..0] == [] && [] + [rune] == [rune];
  }

  lemma GlueBreak(a: seq<Text>, b: seq<Text>)
    requires a != [] && b != []
    ensures Glue(a, Glue([[], []], b)) == a + b
  {
    assert [] + b[0] == b[0] && a[|a| - 1] + [] == a[|a| - 1];
    assert Glue([[], []], b) == [[]] + b;
  }

  lemma NoLines()
    ensures Lines([]) == [[]]
  {
  }

  lemma EnterSplitsLine(text: Text, caret: nat)
    requires caret <= |text|
    ensures ViewInside(ViewOf(text, caret))
    ensures ViewOf(Inserted(text, caret, NEWLINE), caret + 1) == EditedView(ViewOf(text, caret), Enter, true)
  {
    hide Lines, LineStart;
    NoLines();
    var a, b := text[..caret], text[caret..];
    var lines, result := Lines(text), Inserted(text, caret, NEWLINE);
    var (line, column) := PositionOf(text, caret);
    PositionSplits(text, caret);
    LinesAroundRune(a, NEWLINE, b);
    assert result[..caret + 1] == a + [NEWLINE] + [];
    LinesAroundRune(a, NEWLINE, []);
    assert Lines(a) == lines[..line] + [lines[line][..column]];
    assert Lines(b) == [lines[line][column..]] + lines[line + 1..];
  }

  /** Deleting the rune after the caret removes it from its line, or joins the
      line with the next, and leaves the caret in its place. */
  lemma DeleteInView(text: Text, caret: nat)
    requires caret < |text|
    ensures ViewInside(ViewOf(text, caret))
    ensures var v := ViewOf(text, caret);
            && (v.column == |v.lines[v.line]| ==> v.line < |v.lines| - 1)
            && ViewOf(Deleted(text, caret), caret) == EditedView(v, Delete, true)
  {
    hide Lines, LineStart;
    var a, b, rune := text[..caret], text[caret + 1..], text[caret];
    var lines := Lines(text);
    var la, lb := Lines(a), Lines(b);
    var (line, column) := PositionOf(text, caret);
    PositionSplits(text, caret);
    CaretAtEnd(text, caret);
    assert text == a + [rune] + b;
    LinesAroundRune(a, rune, b);
    LinesConcatenate(a, b);
    assert Deleted(text, caret)[..caret] == a;
    if rune == NEWLINE {
      MergedGlue(la, lb);
    } else {
      WithoutColumnGlue(la, rune, lb);
    }
    hide Glue, Merged, WithoutColumn;
  }

  lemma MergedGlue(a: seq<Text>, b: seq<Text>)
    requires a != [] && b != []
    ensures Merged(a + b, |a| - 1) == Glue(a, b)
  {
  }

  lemma WithoutColumnGlue(a: seq<Text>, rune: Rune, b: seq<Text>)
    requires a != [] && b != []
    ensures var lines, line := Glue(a, Glue([[rune]], b)), |a| - 1;
            |lines[line]| > |a[line]| && WithoutColumn(lines, line, |a[line]|) == Glue(a, b)
  {
    var lines, line := Glue(a, Glue([[rune]], b)), |a| - 1;
    assert lines[line] == a[line] + ([rune] + b[0]);
    assert Deleted(lines[line], |a[line]|) == a[line] + b[0];
    assert WithoutColumn(lines, line, |a[line]|) == Glue(a, b);
  }
}
