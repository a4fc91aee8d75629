/** The Table operations of the Data module: columns are chosen, dropped and
    renamed, and rows are grouped, counted and cross-tabulated. */
module Tables {
  import opened Outcomes

  type Row = seq<string>

  datatype Table = Table(columns: seq<string>, cells: seq<Row>)

  /** Every row has one cell per column. */
  predicate Rectangular(t: Table) {
    forall i :: 0 <= i < |t.cells| ==> |t.cells[i]| == |t.columns|
  }

  predicate Distinct(names: seq<string>) {
    forall i, j :: 0 <= i < j < |names| ==> names[i] != names[j]
  }

  predicate ValidSchema(columns: seq<string>) {
    Distinct(columns) && "" !in columns
  }

  /** Column p exists in every row. */
  predicate Wide(cells: seq<Row>, p: nat) {
    forall i :: 0 <= i < |cells| ==> p < |cells[i]|
  }

  // ---- columns by name ---------------------------------------------------------------

  /** The first column of a name. */
  function IndexOf(columns: seq<string>, name: string): (p: nat)
    requires name in columns
    ensures p < |columns| && columns[p] == name && name !in columns[..p]
  {
    if columns[0] == name then 0 else IndexOf(columns[1..], name) + 1
  }

  lemma IndexUnique(columns: seq<string>, p: nat)
    requires p < |columns| && Distinct(columns)
    ensures IndexOf(columns, columns[p]) == p
  {
  }

  method ColumnPosition(columns: seq<string>, name: string) returns (r: Outcome<nat>)
    ensures r == if name in columns then Value(IndexOf(columns, name)) else Raise(DataError)
  {
    for position := 0 to |columns|
      invariant name !in columns[..position]
    {
      if columns[position] == name {
        return Value(position);
      }
    }
    r := Raise(DataError);
  }

  // ---- grouping ------------------------------------------------------------------------

  /** The distinct values of a column, in order of first occurrence. */
  function KeysOf(cells: seq<Row>, p: nat): (keys: seq<string>)
    requires Wide(cells, p)
  {
    if cells == [] then [] else
      var before, key := KeysOf(cells[..|cells| - 1], p), cells[|cells| - 1][p];
      if key in before then before else before + [key]
  }

  /** The rows with one value in a column, in table order. */
  function Filter(cells: seq<Row>, p: nat, key: string): seq<Row>
    requires Wide(cells, p)
  {
    if cells == [] then [] else
      var before, last := Filter(cells[..|cells| - 1], p, key), cells[|cells| - 1];
      if last[p] == key then before + [last] else before
  }

  function Count(cells: seq<Row>, p: nat, key: string): nat
    requires Wide(cells, p)
  {
    if cells == [] then 0 else
      Count(cells[..|cells| - 1], p, key) + if cells[|cells| - 1][p] == key then 1 else 0
  }

  lemma {:induction false} KeysDistinct(cells: seq<Row>, p: nat)
    requires Wide(cells, p)
    ensures Distinct(KeysOf(cells, p)) && |KeysOf(cells, p)| <= |cells|
  {
    if cells != [] {
      KeysDistinct(cells[..|cells| - 1], p);
    }
  }

  lemma {:induction false} KeysCover(cells: seq<Row>, p: nat, key: string)
    requires Wide(cells, p)
    ensures key in KeysOf(cells, p) <==> Count(cells, p, key) > 0
    ensures key in KeysOf(cells, p) <==> exists i :: 0 <= i < |cells| && cells[i][p] == key
  {
    if cells != [] {
      var rest, last := cells[..|cells| - 1], cells[|cells| - 1];
      KeysCover(rest, p, key);
      assert forall i :: 0 <= i < |rest| ==> rest[i] == cells[i];
      if last[p] == key {
        assert cells[|cells| - 1][p] == key;
      }
    }
  }

  lemma KeysCoverRow(cells: seq<Row>, p: nat, i: nat)
    requires Wide(cells, p) && i < |cells|
    ensures cells[i][p] in KeysOf(cells, p)
  {
    KeysCover(cells, p, cells[i][p]);
  }

  /** The rows with index before n whose key is new come in that order: the keys of
      a shorter table are the first keys of a longer one. */
  lemma {:induction false} KeysInOrder(cells: seq<Row>, p: nat, n: nat)
    requires Wide(cells, p) && n <= |cells|
    ensures KeysOf(cells[..n], p) <= KeysOf(cells, p)
  {
    if n == |cells| {
      assert cells[..n] == cells;
    } else {
      var rest := cells[..|cells| - 1];
      KeysInOrder(rest, p, n);
      assert rest[..n] == cells[..n];
    }
  }

  lemma {:induction false} FilterWide(cells: seq<Row>, p: nat, key: string, q: nat)
    requires Wide(cells, p) && Wide(cells, q)
    ensures Wide(Filter(cells, p, key), q)
  {
    if cells != [] {
      FilterWide(cells[..|cells| - 1], p, key, q);
    }
  }

  /** A group has as many rows as its value has occurrences, each with that value. */
  lemma {:induction false} GroupSize(cells: seq<Row>, p: nat, key: string)
    requires Wide(cells, p)
    ensures |Filter(cells, p, key)| == Count(cells, p, key)
    ensures forall row :: row in Filter(cells, p, key) <==> row in cells && row[p] == key
  {
    if cells != [] {
      var rest, last := cells[..|cells| - 1], cells[|cells| - 1];
      GroupSize(rest, p, key);
      assert forall row :: row in cells <==> row in rest || row == last;
    }
  }

  /** `at` holds, in increasing order, exactly the indices of the rows with the key, and
      the group is those rows. */
  ghost predicate Picks(cells: seq<Row>, p: nat, key: string, group: seq<Row>, at: seq<nat>)
    requires Wide(cells, p)
  {
    && |at| == |group|
    && (forall k, l :: 0 <= k < l < |at| ==> at[k] < at[l])
    && (forall k :: 0 <= k < |at| ==> at[k] < |cells| && cells[at[k]][p] == key && group[k] == cells[at[k]])
    && (forall i :: 0 <= i < |cells| && cells[i][p] == key ==> i in at)
  }

  /** The group is the rows with the key, all of them, in the order of the table. */
  ghost predicate InTableOrder(cells: seq<Row>, p: nat, key: string, group: seq<Row>)
    requires Wide(cells, p)
  {
    exists at :: Picks(cells, p, key, group, at)
  }

  lemma {:induction false} FilterInOrder(cells: seq<Row>, p: nat, key: string)
    requires Wide(cells, p)
    ensures InTableOrder(cells, p, key, Filter(cells, p, key))
  {
    hide Picks;
    if cells == [] {
      PicksNothing(p, key);
    } else {
      var rest, last := cells[..|cells| - 1], cells[|cells| - 1];
      FilterInOrder(rest, p, key);
      var before := Filter(rest, p, key);
      var at :| Picks(rest, p, key, before, at);
      assert Filter(cells, p, key) == if last[p] == key then before + [last] else before;
      hide Filter, InTableOrder;
      PicksOneMore(rest, p, key, before, at, last);
      assert rest + [last] == cells;
    }
  }

  lemma PicksNothing(p: nat, key: string)
    ensures InTableOrder([], p, key, [])
  {
    assert Picks([], p, key, [], []);
  }

  lemma PicksOneMore(cells: seq<Row>, p: nat, key: string, group: seq<Row>, at: seq<nat>, last: Row)
    requires Wide(cells, p) && Picks(cells, p, key, group, at) && p < |last|
    ensures Wide(cells + [last], p)
    ensures InTableOrder(cells + [last], p, key, if last[p] == key then group + [last] else group)
  {
    var more := cells + [last];
    assert forall i :: 0 <= i < |cells| ==> more[i] == cells[i];
    if last[p] == key {
      var longer := at + [|cells|];
      assert forall i :: i in at ==> i in longer;
      assert longer[|at|] == |cells|;
      assert Picks(more, p, key, group + [last], longer);
    } else {
      assert Picks(more, p, key, group, at);
    }
  }

  /** The rows of a table in two parts are those of the first part, then those of the second. */
  lemma {:induction false} FilterAdds(cells: seq<Row>, more: seq<Row>, p: nat, key: string)
    requires Wide(cells, p) && Wide(more, p)
    ensures Wide(cells + more, p)
    ensures Filter(cells + more, p, key) == Filter(cells, p, key) + Filter(more, p, key)
    decreases |more|
  {
    if more == [] {
      assert cells + more == cells;
    } else {
      var rest, last := more[..|more| - 1], more[|more| - 1];
      FilterAdds(cells, rest, p, key);
      assert (cells + more)[..|cells + more| - 1] == cells + rest;
      assert (cells + more)[|cells + more| - 1] == last;
    }
  }

  /** All the groups, one after the other. */
  function Together(cells: seq<Row>, p: nat, keys: seq<string>): seq<Row>
    requires Wide(cells, p)
  {
    if keys == [] then [] else Together(cells, p, keys[..|keys| - 1]) + Filter(cells, p, keys[|keys| - 1])
  }

  lemma TogetherOne(cells: seq<Row>, p: nat, keys: seq<string>)
    requires Wide(cells, p) && cells != [] && Distinct(keys)
    ensures var rest, last := cells[..|cells| - 1], cells[|cells| - 1];
            multiset(Together(cells, p, keys)) ==
            multiset(Together(rest, p, keys)) + if last[p] in keys then multiset{last} else multiset{}
    decreases |keys|
  {
    var rest, last := cells[..|cells| - 1], cells[|cells| - 1];
    if keys != [] {
      var shorter, key := keys[..|keys| - 1], keys[|keys| - 1];
      TogetherOne(cells, p, shorter);
      assert last[p] in keys <==> last[p] in shorter || last[p] == key;
      assert last[p] == key ==> last[p] !in shorter;
    }
  }

  lemma {:induction false} NothingTogether(p: nat, keys: seq<string>)
    ensures Together([], p, keys) == []
  {
    if keys != [] {
      NothingTogether(p, keys[..|keys| - 1]);
    }
  }

  /** Every value of a column is one of the keys. */
  ghost predicate Covered(cells: seq<Row>, p: nat, keys: seq<string>)
    requires Wide(cells, p)
  {
    forall i :: 0 <= i < |cells| ==> cells[i][p] in keys
  }

  lemma CoveredFirst(cells: seq<Row>, p: nat, keys: seq<string>)
    requires Wide(cells, p) && cells != [] && Covered(cells, p, keys)
    ensures Covered(cells[..|cells| - 1], p, keys) && cells[|cells| - 1][p] in keys
  {
  }

  /** Grouping conserves the rows: distinct keys that cover the column give every
      row of the table exactly once. */
  lemma {:induction false} GroupsConserve(cells: seq<Row>, p: nat, keys: seq<string>)
    requires Wide(cells, p) && Distinct(keys) && Covered(cells, p, keys)
    ensures multiset(Together(cells, p, keys)) == multiset(cells)
  {
    hide Together, Distinct, Covered;
    if cells == [] {
      NothingTogether(p, keys);
    } else {
      var rest, last := cells[..|cells| - 1], cells[|cells| - 1];
      CoveredFirst(cells, p, keys);
      GroupsConserve(rest, p, keys);
      TogetherOne(cells, p, keys);
      assert cells == rest + [last];
    }
  }

  lemma KeysCovered(cells: seq<Row>, p: nat)
    requires Wide(cells, p)
    ensures Covered(cells, p, KeysOf(cells, p)) && Distinct(KeysOf(cells, p))
  {
    KeysDistinct(cells, p);
    forall i | 0 <= i < |cells|
      ensures cells[i][p] in KeysOf(cells, p)
    {
      KeysCoverRow(cells, p, i);
    }
  }

  lemma GroupByConserves(cells: seq<Row>, p: nat)
    requires Wide(cells, p)
    ensures multiset(Together(cells, p, KeysOf(cells, p))) == multiset(cells)
  {
    KeysCovered(cells, p);
    GroupsConserve(cells, p, KeysOf(cells, p));
  }

  /** The total of the counts of some values. */
  function SumCounts(cells: seq<Row>, p: nat, keys: seq<string>): nat
    requires Wide(cells, p)
  {
    if keys == [] then 0 else SumCounts(cells, p, keys[..|keys| - 1]) + Count(cells, p, keys[|keys| - 1])
  }

  lemma {:induction false} TogetherSize(cells: seq<Row>, p: nat, keys: seq<string>)
    requires Wide(cells, p)
    ensures |Together(cells, p, keys)| == SumCounts(cells, p, keys)
  {
    if keys != [] {
      TogetherSize(cells, p, keys[..|keys| - 1]);
      GroupSize(cells, p, keys[|keys| - 1]);
    }
  }

  /** Counts over distinct keys that cover a column add up to the row count. */
  lemma CountsAddUp(cells: seq<Row>, p: nat, keys: seq<string>)
    requires Wide(cells, p) && Distinct(keys) && Covered(cells, p, keys)
    ensures SumCounts(cells, p, keys) == |cells|
  {
    GroupsConserve(cells, p, keys);
    TogetherSize(cells, p, keys);
    assert |Together(cells, p, keys)| == |multiset(Together(cells, p, keys))| == |multiset(cells)| == |cells|;
  }

  // ---- the operations ------------------------------------------------------------------

  method Unique(t: Table, name: string) returns (r: Outcome<seq<string>>)
    requires Rectangular(t)
    ensures name !in t.columns ==> r == Raise(DataError)
    ensures name in t.columns ==> r == Value(KeysOf(t.cells, IndexOf(t.columns, name)))
  {
    var position := ColumnPosition(t.columns, name);
    if position.Raise? {
      return Raise(position.error);
    }
    var p := position.value;
    var seen: set<string>, result: seq<string> := {}, [];
    for i := 0 to |t.cells|
      invariant result == KeysOf(t.cells[..i], p) && forall k :: k in seen <==> k in result
    {
      assert t.cells[..i + 1][..i] == t.cells[..i];
      var key := t.cells[i][p];
      if key !in seen {
        seen := seen + {key};
        result := result + [key];
      }
    }
    assert t.cells[..|t.cells|] == t.cells;
    r := Value(result);
  }

  /** An ordered Pair: its keys in order, and a value for each. */
  datatype Pair<T> = Pair(keys: seq<string>, values: map<string, T>)

  method ValueCounts(t: Table, name: string) returns (r: Outcome<Pair<int>>)
    requires Rectangular(t)
    ensures name !in t.columns ==> r == Raise(DataError)
    ensures name in t.columns ==>
      var p := IndexOf(t.columns, name);
      r.Value? && r.value.keys == KeysOf(t.cells, p)
      && (forall k :: k in r.value.values <==> k in r.value.keys)
      && (forall k :: k in r.value.values ==> r.value.values[k] == Count(t.cells, p, k))
  {
    var position := ColumnPosition(t.columns, name);
    if position.Raise? {
      return Raise(position.error);
    }
    var p := position.value;
    var keys: seq<string>, values: map<string, int> := [], map[];
    for i := 0 to |t.cells|
      invariant keys == KeysOf(t.cells[..i], p) && forall k :: k in values <==> k in keys
      invariant forall k :: k in values ==> values[k] == Count(t.cells[..i], p, k)
    {
      assert t.cells[..i + 1][..i] == t.cells[..i];
      var key := t.cells[i][p];
      KeysCover(t.cells[..i], p, key);
      if key in values {
        values := values[key := values[key] + 1];
      } else {
        keys := keys + [key];
        values := values[key := 1];
      }
    }
    assert t.cells[..|t.cells|] == t.cells;
    r := Value(Pair(keys, values));
  }

  /** One group for each of `KeysOf`, holding the `Filter` of the rows by that key. */
  method GroupBy(t: Table, name: string) returns (r: Outcome<Pair<Table>>)
    requires Rectangular(t)
    ensures name !in t.columns ==> r == Raise(DataError)
    ensures name in t.columns ==>
      var p := IndexOf(t.columns, name);
      r.Value? && r.value.keys == KeysOf(t.cells, p)
      && (forall k :: k in r.value.values <==> k in r.value.keys)
      && (forall k :: k in r.value.values ==> r.value.values[k] == Table(t.columns, Filter(t.cells, p, k)))
      && (forall k :: k in r.value.values ==> InTableOrder(t.cells, p, k, r.value.values[k].cells))
  {
    var position := ColumnPosition(t.columns, name);
    if position.Raise? {
      return Raise(position.error);
    }
    var p := position.value;
    var keys, collected := Collect(t.cells, p);
    var groups: map<string, Table> := map[];
    for i := 0 to |keys|
      invariant forall k :: k in groups <==> k in keys[..i]
      invariant forall k :: k in groups ==> groups[k] == Table(t.columns, Filter(t.cells, p, k))
    {
      assert keys[i] in keys;
      groups := groups[keys[i] := Table(t.columns, collected[keys[i]])];
    }
    assert keys[..|keys|] == keys;
    forall k: string
      ensures InTableOrder(t.cells, p, k, Filter(t.cells, p, k))
    {
      FilterInOrder(t.cells, p, k);
    }
    hide InTableOrder;
    r := Value(Pair(keys, groups));
  }

  /** The rows of each value, in table order. */
  method Collect(cells: seq<Row>, p: nat) returns (keys: seq<string>, collected: map<string, seq<Row>>)
    requires Wide(cells, p)
    ensures keys == KeysOf(cells, p) && forall k :: k in collected <==> k in keys
    ensures forall k :: k in collected ==> collected[k] == Filter(cells, p, k)
  {
    keys, collected := [], map[];
    for i := 0 to |cells|
      invariant keys == KeysOf(cells[..i], p) && forall k :: k in collected <==> k in keys
      invariant forall k :: k in collected ==> collected[k] == Filter(cells[..i], p, k)
    {
      assert cells[..i + 1][..i] == cells[..i];
      var row := cells[i];
      if row[p] in collected {
        collected := collected[row[p] := collected[row[p]] + [row]];
      } else {
        NewKey(cells[..i], p, row[p]);
        keys := keys + [row[p]];
        collected := collected[row[p] := [row]];
      }
    }
    assert cells[..|cells|] == cells;
  }

  lemma NewKey(cells: seq<Row>, p: nat, key: string)
    requires Wide(cells, p) && key !in KeysOf(cells, p)
    ensures Filter(cells, p, key) == []
  {
    KeysCover(cells, p, key);
    GroupSize(cells, p, key);
  }

  // ---- cross-tabulation ------------------------------------------------------------------

  /** Rows with one value in column p and another in column q. */
  function CountBoth(cells: seq<Row>, p: nat, q: nat, a: string, b: string): nat
    requires Wide(cells, p) && Wide(cells, q)
  {
    if cells == [] then 0 else
      var last := cells[|cells| - 1];
      CountBoth(cells[..|cells| - 1], p, q, a, b) + if last[p] == a && last[q] == b then 1 else 0
  }

  /** A cross count is a count inside a group. */
  lemma {:induction false} CrossCountsGroup(cells: seq<Row>, p: nat, q: nat, a: string, b: string)
    requires Wide(cells, p) && Wide(cells, q)
    ensures Wide(Filter(cells, p, a), q) && CountBoth(cells, p, q, a, b) == Count(Filter(cells, p, a), q, b)
  {
    FilterWide(cells, p, a, q);
    if cells != [] {
      var rest, last := cells[..|cells| - 1], cells[|cells| - 1];
      CrossCountsGroup(rest, p, q, a, b);
      if last[p] == a {
        var group := Filter(cells, p, a);
        assert group[..|group| - 1] == Filter(rest, p, a);
      }
    }
  }

  lemma {:induction false} CrossSymmetric(cells: seq<Row>, p: nat, q: nat, a: string, b: string)
    requires Wide(cells, p) && Wide(cells, q)
    ensures CountBoth(cells, p, q, a, b) == CountBoth(cells, q, p, b, a)
  {
    if cells != [] {
      CrossSymmetric(cells[..|cells| - 1], p, q, a, b);
    }
  }

  function RowSum(cells: seq<Row>, p: nat, q: nat, a: string, keys: seq<string>): nat
    requires Wide(cells, p) && Wide(cells, q)
  {
    if keys == [] then 0 else
      RowSum(cells, p, q, a, keys[..|keys| - 1]) + CountBoth(cells, p, q, a, keys[|keys| - 1])
  }

  lemma {:induction false} RowSumInGroup(cells: seq<Row>, p: nat, q: nat, a: string, keys: seq<string>)
    requires Wide(cells, p) && Wide(cells, q)
    ensures Wide(Filter(cells, p, a), q) && RowSum(cells, p, q, a, keys) == SumCounts(Filter(cells, p, a), q, keys)
  {
    FilterWide(cells, p, a, q);
    if keys != [] {
      RowSumInGroup(cells, p, q, a, keys[..|keys| - 1]);
      CrossCountsGroup(cells, p, q, a, keys[|keys| - 1]);
    }
  }

  /** The counts of one line of a pivot add up to the count of its value. */
  lemma PivotLineAddsUp(cells: seq<Row>, p: nat, q: nat, a: string)
    requires Wide(cells, p) && Wide(cells, q)
    ensures RowSum(cells, p, q, a, KeysOf(cells, q)) == Count(cells, p, a)
  {
    RowSumInGroup(cells, p, q, a, KeysOf(cells, q));
    var group := Filter(cells, p, a);
    GroupSize(cells, p, a);
    KeysDistinct(cells, q);
    forall i | 0 <= i < |group|
      ensures group[i][q] in KeysOf(cells, q)
    {
      assert group[i] in group;
      var j :| 0 <= j < |cells| && cells[j] == group[i];
      KeysCoverRow(cells, q, j);
    }
    CountsAddUp(group, q, KeysOf(cells, q));
  }

  /** The sum of a whole pivot over some line keys. */
  function GrandTotal(cells: seq<Row>, p: nat, q: nat, lines: seq<string>): nat
    requires Wide(cells, p) && Wide(cells, q)
  {
    if lines == [] then 0 else
      GrandTotal(cells, p, q, lines[..|lines| - 1]) + RowSum(cells, p, q, lines[|lines| - 1], KeysOf(cells, q))
  }

  lemma {:induction false} GrandTotalCounts(cells: seq<Row>, p: nat, q: nat, lines: seq<string>)
    requires Wide(cells, p) && Wide(cells, q)
    ensures GrandTotal(cells, p, q, lines) == SumCounts(cells, p, lines)
  {
    if lines != [] {
      GrandTotalCounts(cells, p, q, lines[..|lines| - 1]);
      PivotLineAddsUp(cells, p, q, lines[|lines| - 1]);
    }
  }

  /** All the counts of a pivot add up to the row count of its table. */
  lemma PivotAddsUp(cells: seq<Row>, p: nat, q: nat)
    requires Wide(cells, p) && Wide(cells, q)
    ensures GrandTotal(cells, p, q, KeysOf(cells, p)) == |cells|
  {
    GrandTotalCounts(cells, p, q, KeysOf(cells, p));
    KeysCovered(cells, p);
    CountsAddUp(cells, p, KeysOf(cells, p));
  }

  // ---- counts as text ----------------------------------------------------------------------

  const DIGITS := "0123456789"

  function Decimal(n: nat): (text: string)
    ensures text != []
  {
    if n < 10 then [DIGITS[n]] else Decimal(n / 10) + [DIGITS[n % 10]]
  }

  function DigitOf(c: char): nat {
    if '0' <= c <= '9' then (c - '0') as int else 0
  }

  function Parsed(text: string): nat {
    if text == [] then 0 else 10 * Parsed(text[..|text| - 1]) + DigitOf(text[|text| - 1])
  }

  /** No count is lost in its text. */
  lemma {:induction false} ParsedDecimal(n: nat)
    ensures Parsed(Decimal(n)) == n
  {
    var text := Decimal(n);
    assert DigitOf(DIGITS[n % 10]) == n % 10;
    if n >= 10 {
      ParsedDecimal(n / 10);
      assert text[..|text| - 1] == Decimal(n / 10);
    } else {
      assert text[..0] == [];
      assert Parsed([]) == 0;
    }
  }

  /** The text is the usual one: digits, the highest first and, but for 0 itself, not a 0. */
  lemma {:induction false} DecimalCanonical(n: nat)
    ensures var text := Decimal(n); text[0] == '0' ==> n == 0 && text == "0"
    ensures forall i :: 0 <= i < |Decimal(n)| ==> '0' <= Decimal(n)[i] <= '9'
  {
    if n >= 10 {
      DecimalCanonical(n / 10);
    }
  }

  lemma KnownDecimals()
    ensures Decimal(0) == "0" && Decimal(7) == "7" && Decimal(120) == "120"
  {
    assert Decimal(12) == Decimal(1) + ['2'];
    assert Decimal(120) == Decimal(12) + ['0'];
  }

  function LineOf(cells: seq<Row>, p: nat, q: nat, a: string): (line: Row)
    requires Wide(cells, p) && Wide(cells, q)
    ensures |line| == 1 + |KeysOf(cells, q)|
  {
    var keys := KeysOf(cells, q);
    [a] + seq(|keys|, j requires 0 <= j < |keys| => Decimal(CountBoth(cells, p, q, a, keys[j])))
  }

  function PivotOf(cells: seq<Row>, p: nat, q: nat, rowName: string): (r: Table)
    requires Wide(cells, p) && Wide(cells, q)
    ensures Rectangular(r) && |r.columns| == |KeysOf(cells, q)| + 1 && |r.cells| == |KeysOf(cells, p)|
  {
    var keys := KeysOf(cells, p);
    Table([rowName] + KeysOf(cells, q), seq(|keys|, i requires 0 <= i < |keys| => LineOf(cells, p, q, keys[i])))
  }

  // ---- conservation in the table itself ----------------------------------------------------

  /** What the text cells 1 .. n - 1 of a line add up to. */
  function LineTotal(line: Row, n: nat): nat
    requires 1 <= n <= |line|
  {
    if n == 1 then 0 else LineTotal(line, n - 1) + Parsed(line[n - 1])
  }

  /** What the text cells of one column add up to. */
  function ColumnTotal(lines: seq<Row>, j: nat): nat
    requires Wide(lines, j)
  {
    if lines == [] then 0 else ColumnTotal(lines[..|lines| - 1], j) + Parsed(lines[|lines| - 1][j])
  }

  /** What all the text cells behind the line names add up to. */
  function TableTotal(lines: seq<Row>): nat
    requires forall i :: 0 <= i < |lines| ==> |lines[i]| >= 1
  {
    if lines == [] then 0 else
      TableTotal(lines[..|lines| - 1]) + LineTotal(lines[|lines| - 1], |lines[|lines| - 1]|)
  }

  lemma {:induction false} LineTotalSums(cells: seq<Row>, p: nat, q: nat, a: string, n: nat)
    requires Wide(cells, p) && Wide(cells, q) && n <= |KeysOf(cells, q)|
    ensures LineTotal(LineOf(cells, p, q, a), n + 1) == RowSum(cells, p, q, a, KeysOf(cells, q)[..n])
  {
    hide KeysOf, CountBoth, Decimal, Parsed;
    if n > 0 {
      LineTotalSums(cells, p, q, a, n - 1);
      var keys := KeysOf(cells, q);
      assert keys[..n][..n - 1] == keys[..n - 1];
      ParsedDecimal(CountBoth(cells, p, q, a, keys[n - 1]));
    }
  }

  /** The counts of one column of a pivot are those of a line with the axes exchanged. */
  function ColumnSum(cells: seq<Row>, p: nat, q: nat, b: string, lines: seq<string>): nat
    requires Wide(cells, p) && Wide(cells, q)
  {
    if lines == [] then 0 else
      ColumnSum(cells, p, q, b, lines[..|lines| - 1]) + CountBoth(cells, p, q, lines[|lines| - 1], b)
  }

  lemma {:induction false} ColumnSumIsRowSum(cells: seq<Row>, p: nat, q: nat, b: string, lines: seq<string>)
    requires Wide(cells, p) && Wide(cells, q)
    ensures ColumnSum(cells, p, q, b, lines) == RowSum(cells, q, p, b, lines)
  {
    if lines != [] {
      ColumnSumIsRowSum(cells, p, q, b, lines[..|lines| - 1]);
      CrossSymmetric(cells, p, q, lines[|lines| - 1], b);
    }
  }

  lemma {:induction false} ColumnTotalSums(cells: seq<Row>, p: nat, q: nat, rowName: string, j: nat, n: nat)
    requires Wide(cells, p) && Wide(cells, q) && 1 <= j <= |KeysOf(cells, q)| && n <= |KeysOf(cells, p)|
    ensures var lines := PivotOf(cells, p, q, rowName).cells;
            && n <= |lines| && Wide(lines[..n], j)
            && ColumnTotal(lines[..n], j) == ColumnSum(cells, p, q, KeysOf(cells, q)[j - 1], KeysOf(cells, p)[..n])
  {
    hide KeysOf, CountBoth, Decimal, Parsed, PivotOf;
    var lines, keys := PivotOf(cells, p, q, rowName).cells, KeysOf(cells, p);
    if n > 0 {
      ColumnTotalSums(cells, p, q, rowName, j, n - 1);
      assert lines[..n][..n - 1] == lines[..n - 1] && keys[..n][..n - 1] == keys[..n - 1];
      assert lines[..n][n - 1] == lines[n - 1] && keys[..n][n - 1] == keys[n - 1];
      PivotCell(cells, p, q, rowName, n - 1, j);
    }
  }

  /** A text cell of a pivot is the count of its line's and its column's values. */
  lemma PivotCell(cells: seq<Row>, p: nat, q: nat, rowName: string, i: nat, j: nat)
    requires Wide(cells, p) && Wide(cells, q) && i < |KeysOf(cells, p)| && 1 <= j <= |KeysOf(cells, q)|
    ensures var r := PivotOf(cells, p, q, rowName);
            && r.cells[i][0] == KeysOf(cells, p)[i] && r.columns[j] == KeysOf(cells, q)[j - 1]
            && Parsed(r.cells[i][j]) == CountBoth(cells, p, q, r.cells[i][0], r.columns[j])
  {
    hide KeysOf, CountBoth, Decimal, Parsed;
    ParsedDecimal(CountBoth(cells, p, q, KeysOf(cells, p)[i], KeysOf(cells, q)[j - 1]));
  }

  lemma {:induction false} TableTotalSums(cells: seq<Row>, p: nat, q: nat, rowName: string, n: nat)
    requires Wide(cells, p) && Wide(cells, q) && n <= |KeysOf(cells, p)|
    ensures var lines := PivotOf(cells, p, q, rowName).cells;
            n <= |lines| && TableTotal(lines[..n]) == GrandTotal(cells, p, q, KeysOf(cells, p)[..n])
  {
    hide KeysOf, LineOf, RowSum, LineTotal;
    if n > 0 {
      TableTotalSums(cells, p, q, rowName, n - 1);
      var lines, keys := PivotOf(cells, p, q, rowName).cells, KeysOf(cells, p);
      assert lines[..n][..n - 1] == lines[..n - 1] && keys[..n][..n - 1] == keys[..n - 1];
      var across := KeysOf(cells, q);
      LineTotalSums(cells, p, q, keys[n - 1], |across|);
      assert across[..|across|] == across;
    }
  }

  /** Nothing is lost in a pivot. Read back from its text, every line adds up to the count
      of its value, every column to the count of its value, and the whole table to the
      number of rows that were tabulated. */
  lemma PivotConserves(cells: seq<Row>, p: nat, q: nat, rowName: string)
    requires Wide(cells, p) && Wide(cells, q)
    ensures var r := PivotOf(cells, p, q, rowName);
            && (forall i :: 0 <= i < |r.cells| ==>
                  LineTotal(r.cells[i], |r.cells[i]|) == Count(cells, p, r.cells[i][0]))
            && (forall j :: 1 <= j < |r.columns| ==>
                  Wide(r.cells, j) && ColumnTotal(r.cells, j) == Count(cells, q, r.columns[j]))
            && TableTotal(r.cells) == |cells|
  {
    hide KeysOf, Count, RowSum, LineTotal, ColumnTotal, TableTotal, ColumnSum, GrandTotal;
    var r := PivotOf(cells, p, q, rowName);
    var down, across := KeysOf(cells, p), KeysOf(cells, q);
    assert across[..|across|] == across && down[..|down|] == down && r.cells[..|r.cells|] == r.cells;
    forall i | 0 <= i < |r.cells|
      ensures LineTotal(r.cells[i], |r.cells[i]|) == Count(cells, p, r.cells[i][0])
    {
      LineTotalSums(cells, p, q, down[i], |across|);
      PivotLineAddsUp(cells, p, q, down[i]);
    }
    forall j | 1 <= j < |r.columns|
      ensures Wide(r.cells, j) && ColumnTotal(r.cells, j) == Count(cells, q, r.columns[j])
    {
      ColumnTotalSums(cells, p, q, rowName, j, |down|);
      ColumnSumIsRowSum(cells, p, q, across[j - 1], down);
      PivotLineAddsUp(cells, q, p, across[j - 1]);
    }
    TableTotalSums(cells, p, q, rowName, |down|);
    PivotAddsUp(cells, p, q);
  }

  /** A count cross-tabulation of two different columns. */
  method PivotCount(t: Table, rowName: string, columnName: string) returns (r: Outcome<Table>)
    requires Rectangular(t)
    ensures rowName !in t.columns || columnName !in t.columns || rowName == columnName ==> r == Raise(DataError)
    ensures rowName in t.columns && columnName in t.columns && rowName != columnName ==>
      r == Value(PivotOf(t.cells, IndexOf(t.columns, rowName), IndexOf(t.columns, columnName), rowName))
  {
    var rowPosition := ColumnPosition(t.columns, rowName);
    if rowPosition.Raise? {
      return Raise(rowPosition.error);
    }
    var columnPosition := ColumnPosition(t.columns, columnName);
    if columnPosition.Raise? {
      return Raise(columnPosition.error);
    }
    if rowName == columnName {
      return Raise(DataError);
    }
    var p, q := rowPosition.value, columnPosition.value;
    var rowOrder, columnOrder, counts := CrossCounts(t.cells, p, q);
    var lines := Lines(counts, rowOrder, columnOrder, t.cells, p, q);
    r := Value(Table([rowName] + columnOrder, lines));
  }

  method Lines(counts: map<string, map<string, nat>>, rowOrder: seq<string>, columnOrder: seq<string>,
               ghost cells: seq<Row>, p: nat, q: nat) returns (lines: seq<Row>)
    requires Wide(cells, p) && Wide(cells, q) && rowOrder == KeysOf(cells, p) && columnOrder == KeysOf(cells, q)
    requires forall a, b :: Cell(counts, a, b) == CountBoth(cells, p, q, a, b)
    ensures forall rowName :: Table([rowName] + columnOrder, lines) == PivotOf(cells, p, q, rowName)
  {
    hide Cell, CountBoth, KeysOf, Decimal;
    lines := [];
    for i := 0 to |rowOrder|
      invariant |lines| == i && forall k :: 0 <= k < i ==> lines[k] == LineOf(cells, p, q, rowOrder[k])
    {
      var line := [rowOrder[i]];
      for j := 0 to |columnOrder|
        invariant line == LineOf(cells, p, q, rowOrder[i])[..j + 1]
      {
        line := line + [Decimal(Cell(counts, rowOrder[i], columnOrder[j]))];
      }
      lines := lines + [line];
    }
  }

  /** A missing combination counts as zero. */
  function Cell(counts: map<string, map<string, nat>>, a: string, b: string): nat {
    if a in counts && b in counts[a] then counts[a][b] else 0
  }

  method CrossCounts(cells: seq<Row>, p: nat, q: nat)
    returns (rowOrder: seq<string>, columnOrder: seq<string>, counts: map<string, map<string, nat>>)
    requires Wide(cells, p) && Wide(cells, q)
    ensures rowOrder == KeysOf(cells, p) && columnOrder == KeysOf(cells, q)
    ensures forall a, b :: Cell(counts, a, b) == CountBoth(cells, p, q, a, b)
  {
    hide Cell;
    rowOrder, columnOrder, counts := [], [], map[];
    NothingCounted();
    var seenRow: set<string>, seenColumn: set<string> := {}, {};
    for i := 0 to |cells|
      invariant rowOrder == KeysOf(cells[..i], p) && forall k :: k in seenRow <==> k in rowOrder
      invariant columnOrder == KeysOf(cells[..i], q) && forall k :: k in seenColumn <==> k in columnOrder
      invariant forall a, b :: Cell(counts, a, b) == CountBoth(cells[..i], p, q, a, b)
    {
      assert cells[..i + 1][..i] == cells[..i];
      var rowKey, columnKey := cells[i][p], cells[i][q];
      if rowKey !in seenRow {
        seenRow := seenRow + {rowKey};
        rowOrder := rowOrder + [rowKey];
      }
      if columnKey !in seenColumn {
        seenColumn := seenColumn + {columnKey};
        columnOrder := columnOrder + [columnKey];
      }
      counts := CountOne(counts, rowKey, columnKey);
    }
    assert cells[..|cells|] == cells;
  }

  lemma NothingCounted()
    ensures forall a, b :: Cell(map[], a, b) == 0
  {
  }

  /** One more row: a new line starts empty, and its cell goes up by one. */
  method CountOne(counts: map<string, map<string, nat>>, a: string, b: string)
    returns (more: map<string, map<string, nat>>)
    ensures forall x, y :: Cell(more, x, y) == Cell(counts, x, y) + if x == a && y == b then 1 else 0
  {
    var line: map<string, nat> := if a in counts then counts[a] else map[];
    var n: nat := Cell(counts, a, b) + 1;
    more := counts[a := line[b := n]];
  }

  /** A pivot has a valid schema exactly when its row axis has a name, and no value of its
      column axis is empty or repeats that name. */
  lemma PivotSchema(cells: seq<Row>, p: nat, q: nat, rowName: string)
    requires Wide(cells, p) && Wide(cells, q)
    ensures ValidSchema(PivotOf(cells, p, q, rowName).columns) <==>
            rowName != "" && forall i :: 0 <= i < |cells| ==> cells[i][q] != "" && cells[i][q] != rowName
  {
    KeysDistinct(cells, q);
    KeysCover(cells, q, "");
    KeysCover(cells, q, rowName);
    assert PivotOf(cells, p, q, rowName).columns == [rowName] + KeysOf(cells, q);
    hide PivotOf, KeysOf, ValidSchema;
    SchemaWithFirst(rowName, KeysOf(cells, q));
  }

  lemma SchemaWithFirst(name: string, keys: seq<string>)
    requires Distinct(keys)
    ensures ValidSchema([name] + keys) <==> name != "" && "" !in keys && name !in keys
  {
    var columns := [name] + keys;
    assert columns[0] == name && forall i :: 0 <= i < |keys| ==> columns[i + 1] == keys[i];
    if name in keys {
      var j :| 0 <= j < |keys| && keys[j] == name;
      assert columns[0] == columns[j + 1];
    }
    if Distinct(columns) {
      assert name !in keys;
    }
  }

  /** Such a table exists: one row whose column value is the row axis's own name. */
  lemma PivotSchemaFails()
    ensures exists t: Table ::
              && Rectangular(t) && ValidSchema(t.columns) && |t.columns| == 2
              && !ValidSchema(PivotOf(t.cells, 0, 1, t.columns[0]).columns)
  {
    var t := Table(["kind", "name"], [["x", "kind"]]);
    PivotSchema(t.cells, 0, 1, "kind");
    assert t.cells[0][1] == "kind";
    assert Rectangular(t) && ValidSchema(t.columns) && t.columns[0] == "kind";
  }
}
