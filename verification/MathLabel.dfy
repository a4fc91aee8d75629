/** Which math labels are accepted: whole-string $...$ formulas, in valid UTF-8, of
    whitelisted commands and balanced braces. A label is a Go string, that is, bytes. */
module MathLabel {
  import opened Utf8

  const MAX_FORMULA_RUNES := 512

  const DOLLAR: Byte := 0x24
  const BACKSLASH: Byte := 0x5C
  const OPEN: Byte := 0x7B
  const CLOSE: Byte := 0x7D

  const SMALL_GREEK: set<string> := {
    "alpha", "beta", "gamma", "delta", "epsilon", "varepsilon", "zeta", "eta", "theta", "vartheta", "iota", "kappa",
    "lambda", "mu", "nu", "xi"
  }

  const MORE_GREEK: set<string> := {
    "pi", "varpi", "rho", "sigma", "varsigma", "tau", "upsilon", "phi", "varphi", "chi", "psi", "omega"
  }

  const CAPITAL_GREEK: set<string> := {
    "Gamma", "Delta", "Theta", "Lambda", "Xi", "Pi", "Sigma", "Phi", "Psi", "Omega"
  }

  const LARGE_OPERATORS: set<string> := {
    "sum", "prod", "int", "oint", "partial", "nabla", "infty", "frac", "dfrac", "tfrac", "sqrt", "binom",
    "displaystyle", "limits", "nolimits"
  }

  const DELIMITERS: set<string> := {"left", "right", "big", "Big", "bigg", "Bigg"}

  const RELATIONS: set<string> := {
    "cdot", "times", "pm", "mp", "div", "le", "leq", "ge", "geq", "neq", "approx", "sim", "equiv", "in",
    "notin", "subset", "subseteq", "supset", "supseteq"
  }

  const FUNCTIONS_AND_FONTS: set<string> := {
    "log", "ln", "exp", "sin", "cos", "tan", "lim", "min", "max", "mathrm", "mathbf", "mathit", "mathcal",
    "overline", "underline", "vec", "text", "quad", "qquad"
  }

  const SPACES: set<string> := {",", ";", ":", "!", " "}

  function AsText(bytes: Bytes): string {
    seq(|bytes|, i requires 0 <= i < |bytes| => bytes[i] as char)
  }

  predicate Allowed(bytes: Bytes) {
    var command := AsText(bytes);
    || command in SMALL_GREEK || command in MORE_GREEK || command in CAPITAL_GREEK || command in LARGE_OPERATORS
    || command in DELIMITERS || command in RELATIONS || command in FUNCTIONS_AND_FONTS || command in SPACES
  }

  /** The bytes that may follow a backslash besides letters. */
  predicate Spacing(c: Byte) {
    c == 0x2C || c == 0x3B || c == 0x3A || c == 0x21 || c == 0x20
  }

  /** No command of one character escapes a brace, a backslash or a bracket. */
  lemma OneCharacterCommands(c: Byte)
    requires Allowed([c])
    ensures Spacing(c)
  {
    var command := AsText([c]);
    assert |command| == 1 && command[0] == c as char;
  }

  predicate Letter(c: Byte) {
    0x41 <= c <= 0x5A || 0x61 <= c <= 0x7A
  }

  // ---- commands ------------------------------------------------------------------------

  /** Where the command that starts at an index ends: behind its letters, or
      behind its one other character. */
  function CommandEnd(content: Bytes, start: nat): (end: nat)
    requires start < |content|
    ensures start < end <= |content|
    ensures !Letter(content[start]) ==> end == start + 1
    ensures Letter(content[start]) ==> forall i :: start <= i < end ==> Letter(content[i])
    ensures Letter(content[start]) && end < |content| ==> !Letter(content[end])
    decreases |content| - start
  {
    if Letter(content[start]) && start + 1 < |content| && Letter(content[start + 1]) then CommandEnd(content, start + 1)
    else start + 1
  }

  predicate CommandAt(content: Bytes, i: nat)
    requires i < |content|
  {
    i + 1 < |content| && Allowed(content[i + 1..CommandEnd(content, i + 1)])
  }

  /** Every backslash starts a whitelisted command. */
  predicate CommandsAllowed(content: Bytes) {
    forall i :: 0 <= i < |content| && content[i] == BACKSLASH ==> CommandAt(content, i)
  }

  /** So a backslash stands before a letter or one of five characters only: it
      never hides a brace and never closes the display. */
  lemma NothingEscaped(content: Bytes, i: nat)
    requires CommandsAllowed(content) && i < |content| && content[i] == BACKSLASH
    ensures i + 1 < |content| && (Letter(content[i + 1]) || Spacing(content[i + 1]))
  {
    hide Allowed;
    assert CommandAt(content, i);
    if !Letter(content[i + 1]) {
      assert content[i + 1..i + 2] == [content[i + 1]];
      OneCharacterCommands(content[i + 1]);
    }
  }

  method ValidateCommands(content: Bytes) returns (valid: bool)
    ensures valid == CommandsAllowed(content)
  {
    hide Allowed;
    var index := 0;
    while index < |content|
      invariant 0 <= index <= |content|
      invariant forall i :: 0 <= i < index && content[i] == BACKSLASH ==> CommandAt(content, i)
    {
      if content[index] != BACKSLASH {
        index := index + 1;
      } else {
        var start := index + 1;
        if start >= |content| {
          assert !CommandAt(content, index);
          return false;
        }
        var end := ReadCommand(content, start);
        if !Allowed(content[start..end]) {
          assert !CommandAt(content, index);
          return false;
        }
        assert CommandAt(content, index);
        CommandHasNoBackslash(content, start);
        index := end;
      }
    }
    valid := true;
  }

  lemma CommandHasNoBackslash(content: Bytes, start: nat)
    requires start < |content| && Allowed(content[start..CommandEnd(content, start)])
    ensures forall i :: start <= i < CommandEnd(content, start) ==> content[i] != BACKSLASH
  {
    hide Allowed;
    if !Letter(content[start]) {
      assert content[start..start + 1] == [content[start]];
      OneCharacterCommands(content[start]);
    }
  }

  method ReadCommand(content: Bytes, start: nat) returns (end: nat)
    requires start < |content|
    ensures end == CommandEnd(content, start)
  {
    end := start;
    if Letter(content[start]) {
      while end < |content| && Letter(content[end])
        invariant start <= end <= |content|
        invariant forall i :: start <= i < end ==> Letter(content[i])
      {
        end := end + 1;
      }
      LettersEnd(content, start, end);
    } else {
      end := end + 1;
    }
  }

  lemma {:induction false} LettersEnd(content: Bytes, start: nat, end: nat)
    requires start < end <= |content| && (forall i :: start <= i < end ==> Letter(content[i]))
    requires end < |content| ==> !Letter(content[end])
    ensures CommandEnd(content, start) == end
    decreases end - start
  {
    if start + 1 < end {
      LettersEnd(content, start + 1, end);
    }
  }

  // ---- braces ----------------------------------------------------------------------------

  /** Opening minus closing braces in the first n characters. */
  function Depth(s: Bytes, n: nat): int
    requires n <= |s|
  {
    if n == 0 then 0 else Depth(s, n - 1) + if s[n - 1] == OPEN then 1 else if s[n - 1] == CLOSE then -1 else 0
  }

  /** Every brace is matched. */
  ghost predicate Matched(s: Bytes) {
    (forall n :: 0 <= n <= |s| ==> Depth(s, n) >= 0) && Depth(s, |s|) == 0
  }

  /** The scan that passes over whatever a backslash precedes. */
  predicate Scans(s: Bytes, i: nat, depth: int)
    decreases |s| - i
  {
    if i >= |s| then depth == 0
    else if s[i] == BACKSLASH then Scans(s, i + 2, depth)
    else if s[i] == OPEN then Scans(s, i + 1, depth + 1)
    else if s[i] == CLOSE then depth > 0 && Scans(s, i + 1, depth - 1)
    else Scans(s, i + 1, depth)
  }

  method Balanced(value: Bytes) returns (balanced: bool)
    ensures balanced == Scans(value, 0, 0)
  {
    var depth, index := 0, 0;
    while index < |value|
      invariant 0 <= index && depth >= 0 && Scans(value, 0, 0) == Scans(value, index, depth)
    {
      if value[index] == BACKSLASH {
        index := index + 2;
      } else {
        if value[index] == OPEN {
          depth := depth + 1;
        } else if value[index] == CLOSE {
          depth := depth - 1;
          if depth < 0 {
            return false;
          }
        }
        index := index + 1;
      }
    }
    balanced := depth == 0;
  }

  /** No backslash stands before a brace or a backslash. */
  ghost predicate Plain(s: Bytes) {
    forall i :: 0 <= i < |s| - 1 && s[i] == BACKSLASH ==> s[i + 1] !in {OPEN, CLOSE, BACKSLASH}
  }

  /** Where nothing is escaped the scan counts every brace. */
  lemma {:induction false} ScansMatched(s: Bytes, i: nat)
    requires Plain(s) && i <= |s| && forall n :: 0 <= n <= i ==> Depth(s, n) >= 0
    ensures Scans(s, i, Depth(s, i)) <==> Matched(s)
    decreases |s| - i
  {
    if i < |s| {
      if s[i] == BACKSLASH {
        assert Depth(s, i + 1) == Depth(s, i);
        if i + 1 < |s| {
          assert Depth(s, i + 2) == Depth(s, i);
          ScansMatched(s, i + 2);
        } else {
          assert Scans(s, i + 2, Depth(s, i)) <==> Depth(s, i) == 0;
        }
      } else if s[i] == CLOSE && Depth(s, i) == 0 {
        assert Depth(s, i + 1) == -1;
      } else {
        ScansMatched(s, i + 1);
      }
    }
  }

  // ---- labels ------------------------------------------------------------------------------

  /** The text starts with a white-space character, as Unicode lists them. */
  predicate Blank(s: Bytes) {
    && s != []
    && (0x09 <= s[0] <= 0x0D || s[0] == 0x20
        || (Two(s) && s[0] == 0xC2 && (s[1] == 0x85 || s[1] == 0xA0))
        || (Three(s) && s[0] == 0xE1 && s[1] == 0x9A && s[2] == 0x80)
        || (Three(s) && s[0] == 0xE2 && s[1] == 0x80 && (s[2] <= 0x8A || s[2] == 0xA8 || s[2] == 0xA9 || s[2] == 0xAF))
        || (Three(s) && s[0] == 0xE2 && s[1] == 0x81 && s[2] == 0x9F)
        || (Three(s) && s[0] == 0xE3 && s[1] == 0x80 && s[2] == 0x80))
  }

  predicate AllBlank(s: Bytes) {
    s == [] || (Blank(s) && AllBlank(s[Width(s)..]))
  }

  predicate Forbidden(c: Byte) {
    c == 0 || c == 0x0D || c == 0x0A || c == 0x25 || c == 0x23 || c == DOLLAR || c == 0x26
  }

  /** A label that may be typeset. */
  ghost predicate ValidFormula(formula: Bytes) {
    && 2 <= |formula| && formula[0] == DOLLAR && formula[|formula| - 1] == DOLLAR
    && ValidUtf8(formula) && RuneCount(formula) <= MAX_FORMULA_RUNES
    && var content := formula[1..|formula| - 1];
       && !AllBlank(content)
       && (forall i :: 0 <= i < |content| ==> !Forbidden(content[i]))
       && CommandsAllowed(content) && Matched(content)
  }

  /** Printable ASCII without a meaning of its own in a formula. */
  predicate Ordinary(c: Byte) {
    0x20 <= c <= 0x7E && c !in {BACKSLASH, OPEN, CLOSE} && !Forbidden(c)
  }

  /** Every formula of ordinary characters up to the limit is accepted. */
  lemma OrdinaryAccepted(content: Bytes)
    requires 0 < |content| <= 510 && content[0] != 0x20 && forall i :: 0 <= i < |content| ==> Ordinary(content[i])
    ensures ValidFormula([DOLLAR] + content + [DOLLAR])
  {
    var formula := [DOLLAR] + content + [DOLLAR];
    assert formula[1..|formula| - 1] == content;
    AsciiIsValid(formula);
    assert !AllBlank(content);
    assert CommandsAllowed(content);
    hide ValidUtf8, RuneCount, AllBlank, CommandsAllowed;
    forall n | 0 <= n <= |content|
      ensures Depth(content, n) == 0
    {
      NoBraces(content, n);
    }
  }

  lemma {:induction false} AsciiIsValid(s: Bytes)
    requires forall i :: 0 <= i < |s| ==> s[i] < 0x80
    ensures ValidUtf8(s) && RuneCount(s) == |s|
  {
    if s != [] {
      assert Width(s) == 1;
      AsciiIsValid(s[1..]);
    }
  }

  lemma {:induction false} NoBraces(s: Bytes, n: nat)
    requires n <= |s| && OPEN !in s && CLOSE !in s
    ensures Depth(s, n) == 0
  {
    if n > 0 {
      NoBraces(s, n - 1);
    }
  }

  /** The checks in the program's order; the verdict is the same as the plain reading. */
  method Validate(formula: Bytes) returns (valid: bool)
    ensures valid == ValidFormula(formula)
  {
    hide CommandsAllowed, Matched, Scans, ValidUtf8, RuneCount, AllBlank;
    if |formula| < 2 || formula[0] != DOLLAR || formula[|formula| - 1] != DOLLAR {
      return false;
    }
    var encoded := ValidString(formula);
    if !encoded {
      return false;
    }
    var count := RuneCountInString(formula);
    if count > MAX_FORMULA_RUNES {
      return false;
    }
    var content := formula[1..|formula| - 1];
    var blank := TrimmedEmpty(content);
    if blank {
      return false;
    }
    var forbidden := AnyForbidden(content);
    if forbidden {
      return false;
    }
    var balanced := Balanced(formula);
    valid := ValidateCommands(content);
    if valid {
      FormulaScans(formula, content);
    }
    valid := valid && balanced;
  }

  method TrimmedEmpty(content: Bytes) returns (blank: bool)
    ensures blank == AllBlank(content)
  {
    hide Blank;
    var i := 0;
    while i < |content|
      invariant 0 <= i <= |content| && AllBlank(content[i..]) == AllBlank(content)
    {
      if !Blank(content[i..]) {
        return false;
      }
      assert content[i..][Width(content[i..])..] == content[i + Width(content[i..])..];
      i := i + Width(content[i..]);
    }
    blank := true;
  }

  method AnyForbidden(content: Bytes) returns (any: bool)
    ensures any <==> exists i :: 0 <= i < |content| && Forbidden(content[i])
  {
    hide Forbidden;
    for i := 0 to |content|
      invariant forall j :: 0 <= j < i ==> !Forbidden(content[j])
    {
      if Forbidden(content[i]) {
        return true;
      }
    }
    any := false;
  }

  /** The scan of the whole label agrees with the braces of its content. */
  lemma FormulaScans(formula: Bytes, content: Bytes)
    requires formula == [DOLLAR] + content + [DOLLAR] && CommandsAllowed(content)
    ensures Scans(formula, 0, 0) <==> Matched(content)
  {
    forall i | 0 <= i < |formula| - 1 && formula[i] == BACKSLASH
      ensures formula[i + 1] !in {OPEN, CLOSE, BACKSLASH}
    {
      assert content[i - 1] == BACKSLASH;
      NothingEscaped(content, i - 1);
      assert formula[i + 1] == content[i];
    }
    ScansMatched(formula, 0);
    forall n | 0 <= n <= |content|
      ensures Depth(formula, n + 1) == Depth(content, n)
    {
      DepthInside(content, n);
    }
    assert Depth(formula, |formula|) == Depth(formula, |formula| - 1);
    assert Matched(formula) ==> Matched(content) by {
      if Matched(formula) {
        forall n | 0 <= n <= |content|
          ensures Depth(content, n) >= 0
        {
          var m := n + 1;
          assert Depth(formula, m) >= 0;
        }
      }
    }
    assert Matched(content) ==> Matched(formula) by {
      if Matched(content) {
        forall n | 0 <= n <= |formula|
          ensures Depth(formula, n) >= 0
        {
          if 0 < n < |formula| {
            var m := n - 1;
            assert Depth(content, m) >= 0;
          }
        }
      }
    }
  }

  lemma {:induction false} DepthInside(content: Bytes, n: nat)
    requires n <= |content|
    ensures var formula := [DOLLAR] + content + [DOLLAR]; Depth(formula, n + 1) == Depth(content, n)
  {
    var formula := [DOLLAR] + content + [DOLLAR];
    if n > 0 {
      DepthInside(content, n - 1);
      assert formula[n] == content[n - 1];
    } else {
      assert Depth(formula, 0) == 0 && formula[0] == DOLLAR;
    }
  }
}
