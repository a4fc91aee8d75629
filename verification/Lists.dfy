/** List operations of the evaluator: the Fisher-Yates shuffle in place and the
    sum, min and max reductions. */
module Lists {
  import opened GoInt
  import opened IntArithmetic
  import opened Outcomes
  import opened Sampling

  // ---- shuffle ---------------------------------------------------------------

  function Swap<T>(s: seq<T>, i: nat, j: nat): (r: seq<T>)
    requires i < |s| && j < |s|
    ensures |r| == |s|
  {
    s[i := s[j]][j := s[i]]
  }

  lemma SwapItems<T>(s: seq<T>, i: nat, j: nat)
    requires i < |s| && j < |s|
    ensures Swap(s, i, j)[i] == s[j] && Swap(s, i, j)[j] == s[i] && multiset(Swap(s, i, j)) == multiset(s)
    ensures forall k :: 0 <= k < |s| && k != i && k != j ==> Swap(s, i, j)[k] == s[k]
  {
  }

  /** One choice per index: choices[i] is the position swapped with i. */
  ghost predicate ValidChoices(choices: seq<int>, n: nat) {
    |choices| >= n && forall i :: 0 <= i < n ==> 0 <= choices[i] <= i
  }

  /** The first n items shuffled, from the last index down to 1. */
  ghost function Shuffled<T>(s: seq<T>, n: nat, choices: seq<int>): (r: seq<T>)
    requires n <= |s| && ValidChoices(choices, n)
    ensures |r| == |s|
    decreases n
  {
    if n <= 1 then s else Shuffled(Swap(s, n - 1, choices[n - 1]), n - 1, choices)
  }

  ghost predicate Distinct<T>(s: seq<T>) {
    forall i, j :: 0 <= i < |s| && 0 <= j < |s| && s[i] == s[j] ==> i == j
  }

  lemma {:induction false} ShuffleKeepsItems<T>(s: seq<T>, n: nat, choices: seq<int>)
    requires n <= |s| && ValidChoices(choices, n)
    ensures multiset(Shuffled(s, n, choices)) == multiset(s)
    decreases n
  {
    if n > 1 {
      ShuffleKeepsItems(Swap(s, n - 1, choices[n - 1]), n - 1, choices);
    }
  }

  lemma {:induction false} ShuffleKeepsTail<T>(s: seq<T>, n: nat, choices: seq<int>, k: nat)
    requires n <= k < |s| && ValidChoices(choices, n)
    ensures Shuffled(s, n, choices)[k] == s[k]
    decreases n
  {
    if n > 1 {
      ShuffleKeepsTail(Swap(s, n - 1, choices[n - 1]), n - 1, choices, k);
    }
  }

  /** The item that ends up last is the one chosen for the last position; the item it
      displaced takes its place among those that are still to be shuffled. */
  lemma ShuffleLast<T>(s: seq<T>, n: nat, choices: seq<int>) returns (rest: seq<T>)
    requires 1 < n <= |s| && ValidChoices(choices, n)
    ensures Shuffled(s, n, choices)[n - 1] == s[choices[n - 1]]
    ensures |rest| == |s| && Shuffled(s, n, choices) == Shuffled(rest, n - 1, choices)
    ensures rest[choices[n - 1]] == s[n - 1]
    ensures forall k :: 0 <= k < n - 1 && k != choices[n - 1] ==> rest[k] == s[k]
  {
    rest := Swap(s, n - 1, choices[n - 1]);
    SwapItems(s, n - 1, choices[n - 1]);
    ShuffleKeepsTail(rest, n - 1, choices, n - 1);
  }

  /** A known shuffle of three items. */
  lemma KnownShuffle<T>(a: T, b: T, c: T)
    ensures ValidChoices([0, 0, 1], 3) && Shuffled([a, b, c], 3, [0, 0, 1]) == [c, a, b]
  {
    assert Swap([a, b, c], 2, 1) == [a, c, b];
    assert Swap([a, c, b], 1, 0) == [c, a, b];
  }

  lemma SwapDistinct<T>(s: seq<T>, i: nat, j: nat)
    requires i < |s| && j < |s| && Distinct(s)
    ensures Distinct(Swap(s, i, j))
  {
  }

  /** For distinct items, different choices end in different orders. */
  lemma {:induction false} ShuffleInjective<T>(s: seq<T>, n: nat, c: seq<int>, d: seq<int>)
    requires n <= |s| && Distinct(s) && ValidChoices(c, n) && ValidChoices(d, n)
    requires Shuffled(s, n, c) == Shuffled(s, n, d)
    ensures forall i :: 0 <= i < n ==> c[i] == d[i]
    decreases n
  {
    if n > 1 {
      ShuffleKeepsTail(Swap(s, n - 1, c[n - 1]), n - 1, c, n - 1);
      ShuffleKeepsTail(Swap(s, n - 1, d[n - 1]), n - 1, d, n - 1);
      assert s[c[n - 1]] == s[d[n - 1]];
      SwapDistinct(s, n - 1, c[n - 1]);
      ShuffleInjective(Swap(s, n - 1, c[n - 1]), n - 1, c, d);
    }
  }

  ghost predicate SameTail<T>(s: seq<T>, p: seq<T>, n: nat)
    requires |s| == |p|
  {
    forall k :: n <= k < |s| ==> s[k] == p[k]
  }

  /** Every order of the items is reached by some choices. */
  lemma {:induction false} ShuffleOnto<T>(s: seq<T>, n: nat, p: seq<T>) returns (c: seq<int>)
    requires n <= |s| == |p| && SameTail(s, p, n) && multiset(p[..n]) == multiset(s[..n])
    ensures |c| == n && ValidChoices(c, n) && Shuffled(s, n, c) == p
    decreases n
  {
    if n == 0 {
      c := [];
      assert p == s;
    } else {
      hide Swap, SameTail;
      var j := IndexOfLast(s[..n], p[..n]);
      var swapped := Swap(s, n - 1, j);
      SwapTail(s, n, p, j);
      var rest := ShuffleOnto(swapped, n - 1, p);
      c := rest + [j];
      OneMoreChoice(s, n, rest, j);
      hide Shuffled, ValidChoices;
    }
  }

  lemma OneMoreChoice<T>(s: seq<T>, n: nat, rest: seq<int>, j: nat)
    requires 0 < n <= |s| && |rest| == n - 1 && ValidChoices(rest, n - 1) && j < n
    ensures ValidChoices(rest + [j], n) && Shuffled(s, n, rest + [j]) == Shuffled(Swap(s, n - 1, j), n - 1, rest)
  {
    ShuffleIgnoresTail(Swap(s, n - 1, j), n - 1, rest, rest + [j]);
    SwapSelf(s, n - 1);
    hide Swap;
  }

  lemma SwapSelf<T>(s: seq<T>, i: nat)
    requires i < |s|
    ensures Swap(s, i, i) == s
  {
  }

  lemma SwapTail<T>(s: seq<T>, n: nat, p: seq<T>, j: nat)
    requires 0 < n <= |s| == |p| && SameTail(s, p, n) && multiset(p[..n]) == multiset(s[..n])
    requires j < n && s[j] == p[n - 1]
    ensures SameTail(Swap(s, n - 1, j), p, n - 1) && multiset(p[..n - 1]) == multiset(Swap(s, n - 1, j)[..n - 1])
  {
    var swapped := Swap(s, n - 1, j);
    SwapPrefix(s[..n], p[..n], j);
    assert swapped[..n - 1] == Swap(s[..n], n - 1, j)[..n - 1] && p[..n - 1] == p[..n][..n - 1];
  }

  lemma IndexOfLast<T>(s: seq<T>, p: seq<T>) returns (j: nat)
    requires p != [] && multiset(p) == multiset(s)
    ensures j < |s| && s[j] == p[|p| - 1]
  {
    assert p[|p| - 1] in multiset(s);
    j :| j < |s| && s[j] == p[|p| - 1];
  }

  lemma SwapPrefix<T>(s: seq<T>, p: seq<T>, j: nat)
    requires j < |s| == |p| && s[j] == p[|p| - 1] && multiset(p) == multiset(s)
    ensures multiset(p[..|p| - 1]) == multiset(Swap(s, |s| - 1, j)[..|s| - 1])
  {
    hide Swap;
    var swapped := Swap(s, |s| - 1, j);
    SwapItems(s, |s| - 1, j);
    InitialItems(p);
    InitialItems(swapped);
  }

  lemma InitialItems<T>(s: seq<T>)
    requires s != []
    ensures multiset(s[..|s| - 1]) == multiset(s) - multiset{s[|s| - 1]}
  {
    assert s == s[..|s| - 1] + [s[|s| - 1]];
  }

  lemma {:induction false} ShuffleIgnoresTail<T>(s: seq<T>, n: nat, c: seq<int>, d: seq<int>)
    requires n <= |s| && ValidChoices(c, n) && ValidChoices(d, n)
    requires forall i :: 0 <= i < n ==> c[i] == d[i]
    ensures Shuffled(s, n, c) == Shuffled(s, n, d)
    decreases n
  {
    if n > 1 {
      ShuffleIgnoresTail(Swap(s, n - 1, c[n - 1]), n - 1, c, d);
    }
  }

  ghost predicate Reached<T(!new)>(s: seq<T>, p: seq<T>) {
    exists c :: |c| == |s| && ValidChoices(c, |s|) && Shuffled(s, |s|, c) == p
  }

  /** Two vectors of choices that end in the same order of s. */
  ghost predicate Orders<T>(s: seq<T>, c: seq<int>, d: seq<int>) {
    && |c| == |d| == |s| && ValidChoices(c, |s|) && ValidChoices(d, |s|)
    && Shuffled(s, |s|, c) == Shuffled(s, |s|, d)
  }

  /** Choices and final orders correspond one to one: every permutation of the
      items, and nothing else, is the result of some choices, and for distinct
      items of exactly one vector of choices. */
  lemma ShuffleBijective<T(!new)>(s: seq<T>)
    ensures forall p: seq<T> :: Reached(s, p) <==> multiset(p) == multiset(s)
    ensures Distinct(s) ==> forall c, d | Orders(s, c, d) :: c == d
  {
    forall p: seq<T> | Reached(s, p)
      ensures multiset(p) == multiset(s)
    {
      var c :| |c| == |s| && ValidChoices(c, |s|) && Shuffled(s, |s|, c) == p;
      ShuffleKeepsItems(s, |s|, c);
    }
    forall p: seq<T> | multiset(p) == multiset(s)
      ensures Reached(s, p)
    {
      assert |p| == |multiset(p)| == |s|;
      assert p[..|s|] == p && s[..|s|] == s;
      var c := ShuffleOnto(s, |s|, p);
    }
    if Distinct(s) {
      forall c, d | Orders(s, c, d)
        ensures c == d
      {
        ShuffleInjective(s, |s|, c, d);
      }
    }
  }

  /** choices are the numbers the generator gives from `seed` on, one for each
      index from n - 1 down to 1, leaving its state at `final`. */
  ghost predicate DrawnChoices(seed: UInt64, n: nat, choices: seq<int>, final: UInt64)
    requires n <= |choices| && n <= TWO_63
    decreases n
  {
    if n <= 1 then
      final == seed
    else
      var index := n - 1;
      var choice := choices[index];
      exists next: UInt64 :: SampledInt(seed, 0, index, choice, next) && DrawnChoices(next, index, choices, final)
  }

  /** The seed determines every choice, and so the whole shuffle. */
  lemma {:induction false} DrawnOnce(seed: UInt64, n: nat, c: seq<int>, d: seq<int>, final: UInt64, other: UInt64)
    requires n <= |c| && n <= |d| && n <= TWO_63
    requires DrawnChoices(seed, n, c, final) && DrawnChoices(seed, n, d, other)
    ensures final == other && forall i :: 1 <= i < n ==> c[i] == d[i]
    decreases n
  {
    hide SampledInt, DrawnChoices;
    if n > 1 {
      var index := n - 1;
      var next := FirstDrawn(seed, n, c, final);
      var after := FirstDrawn(seed, n, d, other);
      SampledOnce(seed, 0, index, c[index], next, d[index], after);
      DrawnOnce(next, index, c, d, final, other);
    } else {
      NothingDrawn(seed, n, c, final);
      NothingDrawn(seed, n, d, other);
    }
  }

  lemma FirstDrawn(seed: UInt64, n: nat, choices: seq<int>, final: UInt64) returns (next: UInt64)
    requires 1 < n <= |choices| && n <= TWO_63 && DrawnChoices(seed, n, choices, final)
    ensures SampledInt(seed, 0, n - 1, choices[n - 1], next) && DrawnChoices(next, n - 1, choices, final)
  {
    hide SampledInt;
    var index := n - 1;
    next :| SampledInt(seed, 0, index, choices[index], next) && DrawnChoices(next, index, choices, final);
  }

  lemma NothingDrawn(seed: UInt64, n: nat, choices: seq<int>, final: UInt64)
    requires n <= 1 && n <= |choices|
    ensures DrawnChoices(seed, n, choices, final) <==> final == seed
  {
    hide SampledInt;
  }

  /** c agrees with the choices already made, those at k and above. */
  ghost predicate Completes(c: seq<int>, choices: seq<int>, k: nat) {
    k <= |c| == |choices| <= TWO_63 && ValidChoices(c, |c|) && SameTail(c, choices, k)
  }

  /** What is left to do from `items` and `state` for the indices below k leads
      to the same end as the whole shuffle from `start` and `seed`. */
  ghost predicate Progress<T>(start: seq<T>, seed: UInt64, items: seq<T>, state: UInt64, choices: seq<int>, k: nat) {
    && k <= |items| == |start| == |choices|
    && (forall c :: Completes(c, choices, k) ==> Shuffled(start, |start|, c) == Shuffled(items, k, c))
    && (forall c, final :: Completes(c, choices, k) && DrawnChoices(state, k, c, final) ==>
          DrawnChoices(seed, |start|, c, final))
  }

  lemma ProgressStep<T>(start: seq<T>, seed: UInt64, items: seq<T>, state: UInt64, choices: seq<int>, index: nat,
                        v: int, next: UInt64)
    requires 0 <= v <= index && 0 < index < |items| <= TWO_63
    requires Progress(start, seed, items, state, choices, index + 1)
    requires SampledInt(state, 0, index, v, next) && ValidChoices(choices, |choices|)
    ensures Progress(start, seed, Swap(items, index, v), next, choices[index := v], index)
    ensures ValidChoices(choices[index := v], |choices|)
  {
    hide SampledInt;
    var swapped, after := Swap(items, index, v), choices[index := v];
    forall c, final | Completes(c, after, index)
      ensures Shuffled(start, |start|, c) == Shuffled(swapped, index, c)
      ensures DrawnChoices(next, index, c, final) ==> DrawnChoices(seed, |start|, c, final)
    {
      assert c[index] == after[index] == v;
      assert Completes(c, choices, index + 1);
      assert Shuffled(items, index + 1, c) == Shuffled(swapped, index, c);
      if DrawnChoices(next, index, c, final) {
        assert DrawnChoices(state, index + 1, c, final);
      }
    }
  }

  class List<T> {
    var items: seq<T>
    var frozen: bool

    constructor (items: seq<T>)
      ensures this.items == items && !frozen
    {
      this.items, frozen := items, false;
    }

    /** Shuffles in place with the session's generator. */
    method Shuffle(session: Session) returns (r: Outcome<()>, ghost choices: seq<int>)
      requires |items| <= TWO_63
      modifies this`items, session
      ensures frozen ==> r == Raise(ConstantError) && items == old(items) && session.rngState == old(session.rngState)
      ensures !frozen ==> r == Value(()) && |choices| == |items| == |old(items)| && ValidChoices(choices, |items|)
      ensures !frozen ==> items == Shuffled(old(items), |items|, choices)
      ensures !frozen ==> DrawnChoices(old(session.rngState), |items|, choices, session.rngState)
    {
      choices := [];
      if frozen {
        return Raise(ConstantError), choices;
      }
      hide SampledInt, Shuffled, DrawnChoices, Progress, Swap, ValidChoices;
      choices := seq(|items|, i => 0);
      ghost var start, seed := items, session.rngState;
      ProgressStart(start, seed, choices);
      var index := |items| - 1;
      while index > 0
        invariant -1 <= index < |items| == |choices| == |start|
        invariant ValidChoices(choices, |choices|)
        invariant Progress(start, seed, items, session.rngState, choices, index + 1)
        decreases index
      {
        ghost var state := session.rngState;
        var selected := session.RandomInt(0, index);
        SampledInRange(state, 0, index, selected.value, session.rngState);
        ProgressStep(start, seed, items, state, choices, index, selected.value, session.rngState);
        choices := choices[index := selected.value];
        items := Swap(items, index, selected.value);
        index := index - 1;
      }
      ProgressEnd(start, seed, items, session.rngState, choices, index + 1);
      r := Value(());
    }
  }

  lemma ProgressStart<T>(start: seq<T>, seed: UInt64, choices: seq<int>)
    requires choices == seq(|start|, i => 0)
    ensures Progress(start, seed, start, seed, choices, |start|) && ValidChoices(choices, |choices|)
  {
  }

  lemma ProgressEnd<T>(start: seq<T>, seed: UInt64, items: seq<T>, state: UInt64, choices: seq<int>, k: nat)
    requires k <= 1 && |choices| <= TWO_63 && ValidChoices(choices, |choices|)
    requires Progress(start, seed, items, state, choices, k)
    ensures items == Shuffled(start, |start|, choices)
    ensures DrawnChoices(seed, |start|, choices, state)
  {
    assert Completes(choices, choices, k);
    assert DrawnChoices(state, k, choices, state);
  }

  // ---- sum, min and max ------------------------------------------------------

  /** A list element; a String is its bytes, which is what Go compares. */
  datatype Item = Null | Int(value: Int64) | Real(number: real) | Text(bytes: seq<int>)

  datatype Reduction = Sum | Min | Max

  predicate SameKind(a: Item, b: Item) {
    a.Int? == b.Int? && a.Real? == b.Real? && a.Text? == b.Text?
  }

  /** Lists are typed: their elements that are not null are all of one kind. */
  ghost predicate Kindred(items: seq<Item>) {
    forall i, j :: 0 <= i < j < |items| && items[i] != Null && items[j] != Null ==> SameKind(items[i], items[j])
  }

  predicate Precedes(a: seq<int>, b: seq<int>) {
    b != [] && (a == [] || a[0] < b[0] || (a[0] == b[0] && Precedes(a[1..], b[1..])))
  }

  predicate OrderedLess(a: Item, b: Item) {
    match a
    case Int(value) => b.Int? && value < b.value
    case Real(number) => b.Real? && number < b.number
    case Text(bytes) => b.Text? && Precedes(bytes, b.bytes)
    case Null => false
  }

  /** Strings compare by the first byte in which they differ, and a prefix comes first. */
  lemma {:induction false} FirstDifference(common: seq<int>, a: seq<int>, b: seq<int>)
    ensures Precedes(common + a, common + b) <==> Precedes(a, b)
    ensures b != [] ==> Precedes(common, common + b)
    ensures a != [] && b != [] && a[0] < b[0] ==> Precedes(common + a, common + b)
  {
    if common == [] {
      assert common + a == a && common + b == b;
    } else {
      var rest := common[1..];
      assert (common + a)[1..] == rest + a && (common + b)[1..] == rest + b;
      FirstDifference(rest, a, b);
    }
  }

  lemma {:induction false} PrecedesTransitive(a: seq<int>, b: seq<int>, c: seq<int>)
    requires Precedes(a, b) && Precedes(b, c)
    ensures Precedes(a, c)
  {
    if a != [] && a[0] == b[0] == c[0] {
      PrecedesTransitive(a[1..], b[1..], c[1..]);
    }
  }

  lemma {:induction false} PrecedesTotal(a: seq<int>, b: seq<int>)
    ensures a == b || Precedes(a, b) || Precedes(b, a)
    ensures !(Precedes(a, b) && Precedes(b, a))
    decreases |a| + |b|
  {
    if a != [] && b != [] {
      PrecedesTotal(a[1..], b[1..]);
      assert a == [a[0]] + a[1..] && b == [b[0]] + b[1..];
    }
  }

  /** The elements of one kind are totally ordered. */
  lemma OrderedTotally(a: Item, b: Item, c: Item)
    requires SameKind(a, b) && a != Null && b != Null
    ensures a == b || OrderedLess(a, b) || OrderedLess(b, a)
    ensures !(OrderedLess(a, b) && OrderedLess(b, a)) && !OrderedLess(a, a)
    ensures OrderedLess(a, b) && OrderedLess(b, c) ==> OrderedLess(a, c)
  {
    if a.Text? {
      PrecedesTotal(a.bytes, b.bytes);
      PrecedesTotal(a.bytes, a.bytes);
      if OrderedLess(a, b) && OrderedLess(b, c) {
        PrecedesTransitive(a.bytes, b.bytes, c.bytes);
      }
    }
  }

  ghost function Total(items: seq<Item>): int {
    if items == [] then 0 else
      var last := items[|items| - 1];
      Total(items[..|items| - 1]) + (if last.Int? then last.value else 0)
  }

  ghost function RealTotal(items: seq<Item>): real {
    if items == [] then 0.0 else
      var last := items[|items| - 1];
      RealTotal(items[..|items| - 1]) + (if last.Real? then last.number else 0.0)
  }

  /** Whether every left-to-right partial sum of the first n items is an Int. */
  ghost predicate PartialSumsFit(items: seq<Item>, n: nat)
    requires n <= |items|
  {
    forall k :: 0 <= k <= n ==> FitsInt64(Total(items[..k]))
  }

  /** A list's sum: exact, and an overflow exactly when a partial sum of integers is one. */
  ghost function SumResult(items: seq<Item>): Outcome<Item>
    requires items != []
  {
    if items[0].Real? then Value(Real(RealTotal(items)))
    else if PartialSumsFit(items, |items|) then
      assert items[..|items|] == items;
      Value(Int(Total(items)))
    else Raise(OverflowError)
  }

  /** An element that every other one follows, or precedes. */
  ghost predicate Extreme(reduction: Reduction, items: seq<Item>, value: Item) {
    && value in items
    && forall i :: 0 <= i < |items| ==>
         items[i] == value || if reduction == Min then OrderedLess(value, items[i]) else OrderedLess(items[i], value)
  }

  /** What an extreme number is: the least or the greatest of the list. */
  lemma ExtremeNumber(items: seq<Item>, value: Item, item: Item)
    requires item in items
    ensures Extreme(Min, items, value) && value.Int? && item.Int? ==> value.value <= item.value
    ensures Extreme(Max, items, value) && value.Int? && item.Int? ==> item.value <= value.value
    ensures Extreme(Min, items, value) && value.Real? && item.Real? ==> value.number <= item.number
    ensures Extreme(Max, items, value) && value.Real? && item.Real? ==> item.number <= value.number
  {
    var i :| 0 <= i < |items| && items[i] == item;
  }

  /** The total of a list in two parts is that of the parts, and of one element itself. */
  lemma {:induction false} TotalAdds(items: seq<Item>, more: seq<Item>)
    ensures Total(items + more) == Total(items) + Total(more)
    ensures RealTotal(items + more) == RealTotal(items) + RealTotal(more)
    decreases |more|
  {
    if more == [] {
      assert items + more == items;
    } else {
      var rest, last := more[..|more| - 1], more[|more| - 1];
      TotalAdds(items, rest);
      var whole := items + more;
      assert whole[..|whole| - 1] == items + rest && whole[|whole| - 1] == last;
    }
  }

  lemma TotalOfOne(item: Item)
    ensures Total([item]) == (if item.Int? then item.value else 0)
    ensures RealTotal([item]) == if item.Real? then item.number else 0.0
  {
    assert [item][..0] == [];
  }

  /** A sum is exact, and overflows exactly when one of its partial sums does; a minimum or
      maximum is an extreme element. */
  method Reduce(reduction: Reduction, items: seq<Item>) returns (r: Outcome<Item>)
    requires Kindred(items) && (reduction == Sum ==> forall item :: item in items ==> !item.Text?)
    ensures items == [] ==> r == Raise(DomainError)
    ensures items != [] && Null in items ==> r == Raise(NullError)
    ensures items != [] && Null !in items && reduction == Sum ==> r == SumResult(items)
    ensures items != [] && Null !in items && reduction != Sum ==> r.Value? && Extreme(reduction, items, r.value)
  {
    if |items| == 0 {
      return Raise(DomainError);
    }
    for i := 0 to |items|
      invariant Null !in items[..i]
    {
      if items[i] == Null {
        return Raise(NullError);
      }
    }
    assert items[..|items|] == items;
    if reduction == Sum {
      r := SumOf(items);
    } else {
      var extreme := ExtremeOf(reduction, items);
      r := Value(extreme);
    }
  }

  method SumOf(items: seq<Item>) returns (r: Outcome<Item>)
    requires items != [] && Null !in items && Kindred(items) && forall item :: item in items ==> !item.Text?
    ensures r == SumResult(items)
  {
    var result := if items[0].Real? then Real(0.0) else Int(0);
    for i := 0 to |items|
      invariant if items[0].Real? then result == Real(RealTotal(items[..i]))
                else PartialSumsFit(items, i) && result == Int(Total(items[..i]))
    {
      assert items[..i + 1][..i] == items[..i] && items[..i + 1][i] == items[i];
      assert items[i] in items && SameKind(items[0], items[i]);
      if result.Int? {
        var sum := IntAdd(result.value, items[i].value);
        if sum.Raise? {
          assert !FitsInt64(Total(items[..i + 1]));
          return Raise(sum.error);
        }
        result := Int(sum.value);
      } else {
        result := Real(result.number + items[i].number);
      }
    }
    assert items[..|items|] == items;
    r := Value(result);
  }

  method ExtremeOf(reduction: Reduction, items: seq<Item>) returns (result: Item)
    requires items != [] && Null !in items && Kindred(items) && reduction != Sum
    ensures Extreme(reduction, items, result)
  {
    hide OrderedLess;
    result := items[0];
    for i := 0 to |items|
      invariant result in items && SameKind(items[0], result) && (i == 0 ==> result == items[0])
      invariant forall j :: 0 <= j < i ==>
        items[j] == result || if reduction == Min then OrderedLess(result, items[j]) else OrderedLess(items[j], result)
    {
      var item := items[i];
      assert item in items && SameKind(items[0], item);
      OrderedTotally(item, result, item);
      if i > 0 && ((reduction == Min && OrderedLess(item, result)) || (reduction == Max && OrderedLess(result, item))) {
        forall j | 0 <= j < i
          ensures if reduction == Min then OrderedLess(item, items[j]) else OrderedLess(items[j], item)
        {
          assert items[j] in items && SameKind(items[0], items[j]);
          OrderedTotally(item, result, items[j]);
          OrderedTotally(items[j], result, item);
        }
        result := item;
      }
    }
  }
}
