/** Semantic tokens in the delta encoding of the Language Server Protocol 3.17
    ("Integer Encoding for Tokens"), with columns and lengths in UTF-16 code units. */
module SemanticTokens {
  import opened Utf8

  const LINE_FEED: Byte := 10
  const WIDTH: int := 0x1_0000_0000

  // ---- UTF-16 lengths --------------------------------------------------------------------

  /** Only a four-byte code point lies above U+FFFF and takes a surrogate pair. */
  function Units(s: Bytes): (n: nat)
    ensures n <= |s| && (s != [] ==> n >= 1)
  {
    if s == [] then 0 else (if Width(s) == 4 then 2 else 1) + Units(s[Width(s)..])
  }

  /** The UTF-16 code units of code points: a surrogate pair above U+FFFF, else one. */
  function UnitsOf(points: seq<CodePoint>): nat {
    if points == [] then 0 else (if points[0] > 0xFFFF then 2 else 1) + UnitsOf(points[1..])
  }

  /** The length of a text is the number of code units of its code points. */
  lemma {:induction false} UnitsOfText(points: seq<CodePoint>)
    ensures Units(TextOf(points)) == UnitsOf(points)
  {
    hide Width, WellFormed, BytesOf;
    if points != [] {
      var rest := TextOf(points[1..]);
      ReadsOne(points[0], rest);
      UnitsOfText(points[1..]);
      assert TextOf(points)[|BytesOf(points[0])|..] == rest;
    }
  }

  /** A byte that starts no well-formed code point counts as one unit. */
  lemma UnitsOfIllFormed(s: Bytes)
    requires s != [] && !WellFormed(s)
    ensures Units(s) == 1 + Units(s[1..])
  {
  }

  /** Lengths add up where the first part ends with a code point. */
  lemma {:induction false} UnitsAdd(text: Bytes, a: nat, b: nat, c: nat)
    requires a <= b <= c <= |text| && Reaches(text, a, b)
    ensures Units(text[a..c]) == Units(text[a..b]) + Units(text[b..c])
    decreases b - a
  {
    hide Width, Units;
    NoUnits();
    if a < b {
      var s, w := text[a..], Width(text[a..]);
      UnitsAdd(text, a + w, b, c);
      WidthOfPrefix(s, b - a);
      WidthOfPrefix(s, c - a);
      assert s[..b - a] == text[a..b] && s[..c - a] == text[a..c];
      assert text[a..b][w..] == text[a + w..b] && text[a..c][w..] == text[a + w..c];
      UnitsStep(text[a..b]);
      UnitsStep(text[a..c]);
    } else {
      assert text[a..b] == [];
    }
  }

  lemma NoUnits()
    ensures Units([]) == 0
  {
  }

  lemma UnitsStep(s: Bytes)
    requires s != []
    ensures Units(s) == (if Width(s) == 4 then 2 else 1) + Units(s[Width(s)..])
  {
    hide Width;
  }

  /** A loop over the code points of a string. */
  method Utf16Length(s: Bytes) returns (length: nat)
    ensures length == Units(s)
  {
    length := 0;
    var i := 0;
    while i < |s|
      invariant 0 <= i <= |s| && length + Units(s[i..]) == Units(s)
    {
      var w := Width(s[i..]);
      assert s[i..][w..] == s[i + w..];
      length := length + if w == 4 then 2 else 1;
      i := i + w;
    }
  }

  // ---- lines ---------------------------------------------------------------------------------

  /** The number of line feeds before an offset. */
  function LineOf(text: Bytes, offset: nat): nat
    requires offset <= |text|
  {
    if offset == 0 then 0 else LineOf(text, offset - 1) + if text[offset - 1] == LINE_FEED then 1 else 0
  }

  /** The offset just behind the last line feed before an offset. */
  function LineStart(text: Bytes, offset: nat): (start: nat)
    requires offset <= |text|
    ensures start <= offset
  {
    if offset == 0 || text[offset - 1] == LINE_FEED then offset else LineStart(text, offset - 1)
  }

  ghost function LineFeeds(text: Bytes, offset: nat): set<int>
    requires offset <= |text|
  {
    set i | 0 <= i < offset && text[i] == LINE_FEED
  }

  /** A position's line is how many line feeds lie before it, and its line starts behind the
      last of them. */
  lemma {:induction false} LinesAre(text: Bytes, offset: nat)
    requires offset <= |text|
    ensures LineOf(text, offset) == |LineFeeds(text, offset)|
    ensures var start := LineStart(text, offset);
            (start == 0 || text[start - 1] == LINE_FEED) && LINE_FEED !in text[start..offset]
  {
    if offset > 0 {
      LinesAre(text, offset - 1);
      var before := LineFeeds(text, offset - 1);
      if text[offset - 1] == LINE_FEED {
        assert LineFeeds(text, offset) == before + {offset - 1};
      } else {
        assert LineFeeds(text, offset) == before;
      }
    }
  }

  /** The offsets at which lines start, as the index keeps them. */
  ghost predicate Index(text: Bytes, n: nat, starts: seq<nat>)
    requires n <= |text|
  {
    && |starts| == LineOf(text, n) + 1 && starts[0] == 0
    && (forall i, j :: 0 <= i < j < |starts| ==> starts[i] < starts[j])
    && (forall i :: 0 <= i < |starts| ==>
          starts[i] <= n && LineOf(text, starts[i]) == i && LineStart(text, starts[i]) == starts[i])
  }

  method NewIndex(text: Bytes) returns (starts: seq<nat>)
    ensures Index(text, |text|, starts)
    ensures forall k :: k in starts <==> k == 0 || (0 < k <= |text| && text[k - 1] == LINE_FEED)
  {
    starts := [0];
    for i := 0 to |text|
      invariant Index(text, i, starts)
      invariant forall k :: k in starts <==> k == 0 || (0 < k <= i && text[k - 1] == LINE_FEED)
    {
      if text[i] == LINE_FEED {
        starts := starts + [i + 1];
      }
    }
  }

  lemma {:induction false} LinesGrow(text: Bytes, a: nat, b: nat)
    requires a <= b <= |text|
    ensures LineOf(text, a) <= LineOf(text, b) && LineStart(text, a) <= LineStart(text, b)
    ensures LineOf(text, a) == LineOf(text, b) <==> LineStart(text, b) <= a
    ensures LineStart(text, b) <= a ==> LineStart(text, a) == LineStart(text, b)
  {
    if a < b {
      LinesGrow(text, a, b - 1);
    }
  }

  lemma StartOfLine(text: Bytes, offset: nat)
    requires offset <= |text|
    ensures var start := LineStart(text, offset);
            LineOf(text, start) == LineOf(text, offset) && LineStart(text, start) == start
  {
    LinesGrow(text, LineStart(text, offset), offset);
  }

  /** An index finds a line by its number: start i is the start of line i. */
  lemma IndexFinds(text: Bytes, starts: seq<nat>, offset: nat, line: nat)
    requires Index(text, |text|, starts) && offset <= |text| && line < |starts|
    ensures starts[line] <= offset <==> line <= LineOf(text, offset)
    ensures line == LineOf(text, offset) ==> starts[line] == LineStart(text, offset)
  {
    LinesGrow(text, offset, |text|);
    StartOfLine(text, offset);
    if starts[line] <= offset {
      LinesGrow(text, starts[line], offset);
    } else {
      LinesGrow(text, offset, starts[line]);
    }
    if line == LineOf(text, offset) {
      LinesGrow(text, LineStart(text, offset), starts[line]);
    }
  }

  datatype LineChar = LineChar(line: nat, column: nat)

  /** A position as an editor counts it. */
  function PositionOf(text: Bytes, offset: nat): LineChar
    requires offset <= |text|
  {
    LineChar(LineOf(text, offset), Units(text[LineStart(text, offset)..offset]))
  }

  /** The first candidate in [0, n) whose line starts behind the offset. */
  method Search(starts: seq<nat>, offset: nat) returns (found: nat)
    requires forall i, j :: 0 <= i < j < |starts| ==> starts[i] < starts[j]
    ensures found <= |starts|
    ensures forall i :: 0 <= i < |starts| ==> (starts[i] > offset <==> found <= i)
  {
    var i, j := 0, |starts|;
    while i < j
      invariant 0 <= i <= j <= |starts|
      invariant forall k :: 0 <= k < i ==> starts[k] <= offset
      invariant forall k :: j <= k < |starts| ==> starts[k] > offset
    {
      var h := (i + j) / 2;
      if starts[h] <= offset {
        i := h + 1;
      } else {
        j := h;
      }
    }
    found := i;
  }

  method OffsetToLineChar(text: Bytes, starts: seq<nat>, offset: nat) returns (p: LineChar)
    requires Index(text, |text|, starts) && offset <= |text|
    ensures p == PositionOf(text, offset)
  {
    var found := Search(starts, offset);
    LinesGrow(text, offset, |text|);
    var n := LineOf(text, offset);
    IndexFinds(text, starts, offset, n);
    if n + 1 < |starts| {
      IndexFinds(text, starts, offset, n + 1);
    }
    var line := found - 1;
    var column := Utf16Length(text[starts[line]..offset]);
    p := LineChar(line, column);
  }

  /** The linear scan that folding uses finds the same line. */
  method LineByScan(text: Bytes, starts: seq<nat>, offset: nat) returns (line: nat)
    requires Index(text, |text|, starts) && offset <= |text|
    ensures line == LineOf(text, offset)
  {
    line := 0;
    LinesGrow(text, offset, |text|);
    IndexFinds(text, starts, offset, 0);
    while line + 1 < |starts| && starts[line + 1] <= offset
      invariant line < |starts| && line <= LineOf(text, offset)
    {
      IndexFinds(text, starts, offset, line + 1);
      line := line + 1;
    }
    if line + 1 < |starts| {
      IndexFinds(text, starts, offset, line + 1);
    }
  }

  // ---- the encoding ------------------------------------------------------------------------------

  datatype Token = Token(start: nat, length: nat, kind: nat, modifiers: nat)

  /** What an editor is told of one token. */
  datatype Place = Place(line: nat, column: nat, length: nat, kind: nat, modifiers: nat)

  function End(text: Bytes, t: Token): nat {
    if t.start + t.length > |text| then |text| else t.start + t.length
  }

  function PlaceOf(text: Bytes, t: Token): Place
    requires t.start <= |text|
  {
    var p := PositionOf(text, t.start);
    Place(p.line, p.column, Units(text[t.start..End(text, t)]), t.kind, t.modifiers)
  }

  ghost predicate InText(text: Bytes, tokens: seq<Token>) {
    forall i :: 0 <= i < |tokens| ==> tokens[i].start <= |text| && tokens[i].kind < WIDTH && tokens[i].modifiers < WIDTH
  }

  function PlacesOf(text: Bytes, tokens: seq<Token>): (places: seq<Place>)
    requires InText(text, tokens)
    ensures |places| == |tokens| && forall i :: 0 <= i < |places| ==> places[i] == PlaceOf(text, tokens[i])
  {
    seq(|tokens|, i requires 0 <= i < |tokens| => PlaceOf(text, tokens[i]))
  }

  /** Subtraction of unsigned 32-bit integers wraps around. */
  function Minus(a: int, b: int): int { (a - b) % WIDTH }

  function Group(before: LineChar, p: Place): (data: seq<int>)
    ensures |data| == 5
  {
    var deltaLine := Minus(p.line, before.line);
    [deltaLine, if deltaLine == 0 then Minus(p.column, before.column) else p.column, p.length, p.kind, p.modifiers]
  }

  function Last(places: seq<Place>): LineChar {
    if places == [] then LineChar(0, 0) else LineChar(places[|places| - 1].line, places[|places| - 1].column)
  }

  function Encoded(places: seq<Place>): (data: seq<int>)
    ensures |data| == 5 * |places|
  {
    if places == [] then [] else
      var rest := places[..|places| - 1];
      Encoded(rest) + Group(Last(rest), places[|places| - 1])
  }

  /** One group of the protocol, relative to the token before. */
  function Shifted(at: LineChar, g: seq<int>): Place
    requires |g| == 5 && forall i :: 0 <= i < 5 ==> g[i] >= 0
  {
    Place(at.line + g[0], if g[0] == 0 then at.column + g[1] else g[1], g[2], g[3], g[4])
  }

  /** The protocol's decoder: deltas are added to the token before. */
  function Decoded(data: seq<int>): (places: seq<Place>)
    requires |data| % 5 == 0 && forall i :: 0 <= i < |data| ==> data[i] >= 0
    ensures |places| == |data| / 5
  {
    if data == [] then [] else
      var n := |data| - 5;
      var before := Decoded(data[..n]);
      before + [Shifted(Last(before), data[n..])]
  }

  ghost predicate Fits(places: seq<Place>) {
    forall i :: 0 <= i < |places| ==> InWidth(places[i])
  }

  predicate InWidth(p: Place) {
    p.line < WIDTH && p.column < WIDTH && p.length < WIDTH && p.kind < WIDTH && p.modifiers < WIDTH
  }

  predicate NotBefore(a: LineChar, p: Place) {
    a.line < p.line || (a.line == p.line && a.column <= p.column)
  }

  /** Every token starts at or behind the one before it. */
  predicate Ascending(places: seq<Place>) {
    forall i :: 1 <= i < |places| ==> NotBefore(LineChar(places[i - 1].line, places[i - 1].column), places[i])
  }

  lemma {:induction false} EncodedFits(places: seq<Place>)
    requires Fits(places)
    ensures forall i :: 0 <= i < |Encoded(places)| ==> 0 <= Encoded(places)[i] < WIDTH
  {
    if places != [] {
      var rest := places[..|places| - 1];
      assert InWidth(places[|places| - 1]);
      assert forall i :: 0 <= i < |rest| ==> rest[i] == places[i];
      EncodedFits(rest);
    }
  }

  /** Decoding one more group gives the token back exactly if it does not start
      before the last one. */
  lemma GroupDecodes(at: LineChar, p: Place)
    requires at.line < WIDTH && at.column < WIDTH && InWidth(p)
    ensures forall i :: 0 <= i < 5 ==> 0 <= Group(at, p)[i] < WIDTH
    ensures Shifted(at, Group(at, p)) == p <==> NotBefore(at, p)
  {
  }

  /** The protocol's decoder recovers every token exactly when their positions ascend:
      otherwise some delta underflows. */
  lemma {:induction false} DecodesExactly(places: seq<Place>)
    requires Fits(places)
    ensures forall i :: 0 <= i < |Encoded(places)| ==> 0 <= Encoded(places)[i] < WIDTH
    ensures Decoded(Encoded(places)) == places <==> Ascending(places)
  {
    hide Group, Shifted, NotBefore, Minus, Decoded, Ascending;
    EncodedFits(places);
    if places != [] {
      var n := |places| - 1;
      var rest, p := places[..n], places[n];
      FitsLast(places);
      DecodesExactly(rest);
      GroupDecodes(Last(rest), p);
      DecodedLast(Encoded(rest), Group(Last(rest), p));
      AscendingLast(places);
      assert places == rest + [p];
    } else {
      NothingDecoded();
    }
  }

  lemma NothingDecoded()
    ensures Decoded([]) == [] && Ascending([])
  {
  }

  lemma FitsLast(places: seq<Place>)
    requires Fits(places) && places != []
    ensures var n := |places| - 1;
            Fits(places[..n]) && InWidth(places[n])
            && Last(places[..n]).line < WIDTH && Last(places[..n]).column < WIDTH
  {
    var n := |places| - 1;
    assert forall i :: 0 <= i < n ==> places[..n][i] == places[i];
    assert n > 0 ==> InWidth(places[n - 1]);
  }

  lemma DecodedLast(front: seq<int>, group: seq<int>)
    requires |front| % 5 == 0 && |group| == 5
    requires (forall i :: 0 <= i < |front| ==> front[i] >= 0) && forall i :: 0 <= i < 5 ==> group[i] >= 0
    ensures forall i :: 0 <= i < |front + group| ==> (front + group)[i] >= 0
    ensures Decoded(front + group) == Decoded(front) + [Shifted(Last(Decoded(front)), group)]
  {
    var data := front + group;
    assert data[..|data| - 5] == front && data[|data| - 5..] == group;
  }

  lemma AscendingLast(places: seq<Place>)
    requires places != []
    ensures var n := |places| - 1;
            Ascending(places) <==> Ascending(places[..n]) && NotBefore(Last(places[..n]), places[n])
  {
    hide NotBefore;
    var n := |places| - 1;
    var rest := places[..n];
    FirstNotBefore(places[n]);
    assert forall i :: 0 <= i < n ==> rest[i] == places[i];
    if Ascending(rest) && NotBefore(Last(rest), places[n]) {
      forall i | 1 <= i < |places|
        ensures NotBefore(LineChar(places[i - 1].line, places[i - 1].column), places[i])
      {
        if i < n {
          assert NotBefore(LineChar(rest[i - 1].line, rest[i - 1].column), rest[i]);
        }
      }
    }
  }

  lemma FirstNotBefore(p: Place)
    ensures NotBefore(LineChar(0, 0), p)
  {
  }

  /** Tokens of one text in source order, each starting with a code point of its line. */
  ghost predicate Ordered(text: Bytes, tokens: seq<Token>)
    requires InText(text, tokens)
  {
    && (forall i :: 1 <= i < |tokens| ==> tokens[i - 1].start < tokens[i].start)
    && (forall i :: 0 <= i < |tokens| ==> Reaches(text, LineStart(text, tokens[i].start), tokens[i].start))
  }

  /** Later on a line is further to the right. */
  lemma ColumnsGrow(text: Bytes, a: nat, b: nat)
    requires a < b <= |text| && Reaches(text, LineStart(text, a), a)
    ensures var p, q := PositionOf(text, a), PositionOf(text, b);
            p.line < q.line || (p.line == q.line && p.column < q.column)
  {
    LinesGrow(text, a, b);
    var start := LineStart(text, b);
    if start <= a {
      UnitsAdd(text, start, a, b);
    }
  }

  lemma OrderedAscend(text: Bytes, tokens: seq<Token>)
    requires InText(text, tokens) && Ordered(text, tokens)
    ensures Ascending(PlacesOf(text, tokens))
  {
    var places := PlacesOf(text, tokens);
    forall i | 1 <= i < |places|
      ensures NotBefore(LineChar(places[i - 1].line, places[i - 1].column), places[i])
    {
      ColumnsGrow(text, tokens[i - 1].start, tokens[i].start);
    }
  }

  lemma {:induction false} LineOfAtMost(text: Bytes, offset: nat)
    requires offset <= |text|
    ensures LineOf(text, offset) <= offset
  {
    if offset > 0 {
      LineOfAtMost(text, offset - 1);
    }
  }

  lemma PlacesFit(text: Bytes, tokens: seq<Token>)
    requires InText(text, tokens) && |text| < WIDTH
    ensures Fits(PlacesOf(text, tokens))
  {
    forall i | 0 <= i < |tokens|
      ensures InWidth(PlaceOf(text, tokens[i]))
    {
      LineOfAtMost(text, tokens[i].start);
    }
  }

  /** Group i of the data is what the protocol says of token i relative to the one before. */
  lemma {:induction false} EncodedAt(places: seq<Place>, i: nat)
    requires i < |places|
    ensures |Encoded(places)| == 5 * |places|
    ensures Encoded(places)[5 * i..5 * i + 5] == Group(Last(places[..i]), places[i])
  {
    hide Group, Last;
    var n := |places| - 1;
    var rest, group := places[..n], Group(Last(places[..n]), places[n]);
    assert Encoded(places) == Encoded(rest) + group;
    if i < n {
      EncodedAt(rest, i);
      assert rest[..i] == places[..i];
      assert Encoded(places)[5 * i..5 * i + 5] == Encoded(rest)[5 * i..5 * i + 5];
    }
  }

  /** What is sent of token i besides its position: the UTF-16 length of exactly its own
      bytes, cut off only where it reaches behind the text, its kind and its modifiers. */
  ghost predicate Sends(text: Bytes, t: Token, data: seq<int>, i: nat) {
    && 5 * i + 5 <= |data| && t.start <= |text|
    && data[5 * i + 2] == Units(if t.start + t.length <= |text| then text[t.start..t.start + t.length]
                                else text[t.start..])
    && data[5 * i + 3] == t.kind && data[5 * i + 4] == t.modifiers
  }

  lemma SendsEach(text: Bytes, tokens: seq<Token>, i: nat)
    requires InText(text, tokens) && i < |tokens|
    ensures Sends(text, tokens[i], Encoded(PlacesOf(text, tokens)), i)
  {
    hide Units, Encoded, PositionOf;
    var places := PlacesOf(text, tokens);
    EncodedAt(places, i);
    var data, group := Encoded(places), Group(Last(places[..i]), places[i]);
    assert text[tokens[i].start..|text|] == text[tokens[i].start..];
    assert data[5 * i + 2] == data[5 * i..5 * i + 5][2] == group[2];
    assert data[5 * i + 3] == data[5 * i..5 * i + 5][3] == group[3];
    assert data[5 * i + 4] == data[5 * i..5 * i + 5][4] == group[4];
  }

  /** Encodes the tokens of a text. An editor that decodes them gets every token's line,
      UTF-16 column, length, kind and modifiers back when they are in source order and
      start with code points. */
  method EncodeSemanticTokens(text: Bytes, tokens: seq<Token>) returns (data: seq<int>)
    requires InText(text, tokens) && |text| < WIDTH
    ensures data == Encoded(PlacesOf(text, tokens)) && forall i :: 0 <= i < |data| ==> 0 <= data[i] < WIDTH
    ensures Ordered(text, tokens) ==> Decoded(data) == PlacesOf(text, tokens)
    ensures |data| == 5 * |tokens| && forall i :: 0 <= i < |tokens| ==> Sends(text, tokens[i], data, i)
  {
    var starts := NewIndex(text);
    ghost var places := PlacesOf(text, tokens);
    PlacesFit(text, tokens);
    data := [];
    var before := LineChar(0, 0);
    for i := 0 to |tokens|
      invariant data == Encoded(places[..i]) && before == Last(places[..i])
    {
      var item := tokens[i];
      var start := OffsetToLineChar(text, starts, item.start);
      var length := Utf16Length(text[item.start..End(text, item)]);
      var deltaLine := Minus(start.line, before.line);
      var deltaChar := if deltaLine == 0 then Minus(start.column, before.column) else start.column;
      data := data + [deltaLine, deltaChar, length, item.kind, item.modifiers];
      before := start;
      assert places[..i + 1][..i] == places[..i];
    }
    assert places[..|tokens|] == places;
    forall i | 0 <= i < |tokens|
      ensures Sends(text, tokens[i], data, i)
    {
      SendsEach(text, tokens, i);
    }
    hide Sends;
    DecodesExactly(places);
    if Ordered(text, tokens) {
      OrderedAscend(text, tokens);
    }
  }

  /** Source order alone is not enough: with a token starting inside a code point the
      next column is smaller, so its delta underflows. The text is U+1F600 and a letter. */
  lemma InsideCodePointUnderflows()
    ensures exists text: Bytes, tokens: seq<Token> ::
              && InText(text, tokens) && |tokens| == 2 && tokens[0].start < tokens[1].start
              && !Ascending(PlacesOf(text, tokens))
  {
    var tokens := [Token(3, 1, 0, 0), Token(4, 1, 0, 0)];
    SmileColumns();
    hide PositionOf;
    var places := PlacesOf(SMILE, tokens);
    assert places[0].column == 3 && places[1].column == 2;
    assert !NotBefore(LineChar(places[0].line, places[0].column), places[1]);
  }

  const SMILE: Bytes := [0xF0, 0x9F, 0x98, 0x80, 0x61]

  lemma SmileColumns()
    ensures PositionOf(SMILE, 3) == LineChar(0, 3) && PositionOf(SMILE, 4) == LineChar(0, 2)
  {
    Shortened();
    OneLine(SMILE, 3);
    OneLine(SMILE, 4);
    hide Units;
    assert SMILE[0..3] == [0xF0, 0x9F, 0x98] && SMILE[0..4] == [0xF0, 0x9F, 0x98, 0x80];
  }

  lemma {:induction false} OneLine(text: Bytes, offset: nat)
    requires offset <= |text| && LINE_FEED !in text
    ensures LineOf(text, offset) == 0 && LineStart(text, offset) == 0
  {
    if offset > 0 {
      OneLine(text, offset - 1);
    }
  }

  lemma Shortened()
    ensures Units([0xF0, 0x9F, 0x98]) == 3 && Units([0xF0, 0x9F, 0x98, 0x80]) == 2
  {
    var s: Bytes, whole: Bytes := [0xF0, 0x9F, 0x98], [0xF0, 0x9F, 0x98, 0x80];
    assert s[1..] == [0x9F, 0x98] && s[1..][1..] == [0x98] && s[1..][1..][1..] == [];
    assert Units([0x98]) == 1;
    assert Units([0x9F, 0x98]) == 2;
    assert whole[4..] == [];
  }

  // ---- collecting ------------------------------------------------------------------------------

  /** Gathers tokens, at most one for each start and none without length. */
  class Collector {
    var tokens: seq<Token>
    var seen: set<nat>

    ghost predicate Valid()
      reads this
    {
      && (forall i, j :: 0 <= i < j < |tokens| ==> tokens[i].start != tokens[j].start)
      && (forall i :: 0 <= i < |tokens| ==> tokens[i].start in seen && tokens[i].length > 0)
      && (forall k :: k in seen ==> exists i :: 0 <= i < |tokens| && tokens[i].start == k)
    }

    constructor ()
      ensures Valid() && tokens == []
    {
      tokens, seen := [], {};
    }

    /** The first token at a start wins. */
    method Add(start: nat, length: int, kind: nat, modifiers: nat)
      requires Valid()
      modifies this
      ensures Valid()
      ensures tokens == if length <= 0 || (exists i :: 0 <= i < |old(tokens)| && old(tokens)[i].start == start)
                        then old(tokens) else old(tokens) + [Token(start, length, kind, modifiers)]
    {
      if length <= 0 || start in seen {
        return;
      }
      ghost var before := tokens;
      seen := seen + {start};
      tokens := tokens + [Token(start, length, kind, modifiers)];
      forall k | k in seen
        ensures exists i :: 0 <= i < |tokens| && tokens[i].start == k
      {
        if k == start {
          assert tokens[|before|].start == k;
        } else {
          var i :| 0 <= i < |before| && before[i].start == k;
          assert tokens[i].start == k;
        }
      }
    }
  }

  /** Sorting the collected tokens by start, in whatever way, gives strictly
      increasing starts. */
  lemma SortedStrictly(tokens: seq<Token>, sorted: seq<Token>)
    requires forall i, j :: 0 <= i < j < |tokens| ==> tokens[i].start != tokens[j].start
    requires multiset(sorted) == multiset(tokens)
    requires forall i, j :: 0 <= i < j < |sorted| ==> sorted[i].start <= sorted[j].start
    ensures forall i, j :: 0 <= i < j < |sorted| ==> sorted[i].start < sorted[j].start
  {
    forall i, j | 0 <= i < j < |sorted|
      ensures sorted[i].start != sorted[j].start
    {
      var a, b := FoundAt(tokens, sorted, i), FoundAt(tokens, sorted, j);
      if sorted[i] == sorted[j] {
        HeldTwice(sorted, i, j);
        HeldOnce(tokens, sorted[i]);
      }
    }
  }

  ghost function FoundAt(tokens: seq<Token>, sorted: seq<Token>, i: nat): (a: nat)
    requires multiset(sorted) == multiset(tokens) && i < |sorted|
    ensures a < |tokens| && tokens[a] == sorted[i]
  {
    assert sorted[i] in multiset(tokens);
    var a :| 0 <= a < |tokens| && tokens[a] == sorted[i];
    a
  }

  lemma HeldTwice(tokens: seq<Token>, i: nat, j: nat)
    requires i < j < |tokens| && tokens[i] == tokens[j]
    ensures multiset(tokens)[tokens[i]] >= 2
  {
    assert tokens == tokens[..j] + tokens[j..];
    assert tokens[i] in tokens[..j] && tokens[j] in tokens[j..];
  }

  lemma {:induction false} HeldOnce(tokens: seq<Token>, t: Token)
    requires forall i, j :: 0 <= i < j < |tokens| ==> tokens[i].start != tokens[j].start
    ensures multiset(tokens)[t] <= 1
  {
    if tokens != [] {
      var rest, last := tokens[..|tokens| - 1], tokens[|tokens| - 1];
      HeldOnce(rest, t);
      assert tokens == rest + [last];
      assert t == last ==> t !in rest;
    }
  }
}
