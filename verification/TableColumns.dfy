/** The Table operations that choose, drop and rename columns, and the exchange of
    a table for a list of records. */
module TableColumns {
  import opened Outcomes
  import opened Tables

  ghost predicate AllIn(names: seq<string>, columns: seq<string>) {
    forall i :: 0 <= i < |names| ==> names[i] in columns
  }

  // ---- choosing columns --------------------------------------------------------------

  function Projected(columns: seq<string>, row: Row, names: seq<string>): (r: Row)
    requires AllIn(names, columns) && |row| == |columns|
    ensures |r| == |names|
  {
    seq(|names|, j requires 0 <= j < |names| => row[IndexOf(columns, names[j])])
  }

  function Selected(t: Table, names: seq<string>): (r: Table)
    requires Rectangular(t) && AllIn(names, t.columns)
    ensures Rectangular(r) && r.columns == names && |r.cells| == |t.cells|
  {
    Table(names, seq(|t.cells|, i requires 0 <= i < |t.cells| => Projected(t.columns, t.cells[i], names)))
  }

  /** The chosen columns stand in the order of the names, each with its own cells. */
  lemma SelectedCell(t: Table, names: seq<string>, i: nat, j: nat, p: nat)
    requires Rectangular(t) && AllIn(names, t.columns) && i < |t.cells| && j < |names| && p < |t.columns|
    requires Distinct(t.columns) && t.columns[p] == names[j]
    ensures Selected(t, names).columns[j] == t.columns[p] && Selected(t, names).cells[i][j] == t.cells[i][p]
  {
    IndexUnique(t.columns, p);
  }

  method Select(t: Table, names: seq<string>) returns (r: Outcome<Table>)
    requires Rectangular(t)
    ensures r == if Distinct(names) && AllIn(names, t.columns) then Value(Selected(t, names)) else Raise(DataError)
  {
    var seen: set<string>, positions: seq<nat> := {}, [];
    for index := 0 to |names|
      invariant |positions| == index && Distinct(names[..index]) && AllIn(names[..index], t.columns)
      invariant forall k :: k in seen <==> k in names[..index]
      invariant forall j :: 0 <= j < index ==> names[j] in t.columns && positions[j] == IndexOf(t.columns, names[j])
    {
      var name := names[index];
      assert names[..index + 1] == names[..index] + [name];
      if name in seen {
        RepeatedName(names, index);
        return Raise(DataError);
      }
      seen := seen + {name};
      var position := ColumnPosition(t.columns, name);
      if position.Raise? {
        return Raise(DataError);
      }
      positions := positions + [position.value];
    }
    assert names[..|names|] == names;
    var result := Gathered(t, positions);
    forall i | 0 <= i < |result|
      ensures result[i] == Projected(t.columns, t.cells[i], names)
    {
    }
    assert result == Selected(t, names).cells;
    r := Value(Table(names, result));
  }

  lemma RepeatedName(names: seq<string>, index: nat)
    requires index < |names| && names[index] in names[..index]
    ensures !Distinct(names)
  {
    var i :| 0 <= i < index && names[..index][i] == names[index];
    assert names[i] == names[index];
  }

  /** The given columns of every row. */
  method Gathered(t: Table, positions: seq<nat>) returns (result: seq<Row>)
    requires Rectangular(t) && forall j :: 0 <= j < |positions| ==> positions[j] < |t.columns|
    ensures |result| == |t.cells|
    ensures forall i :: 0 <= i < |result| ==> |result[i]| == |positions|
    ensures forall i, j :: 0 <= i < |result| && 0 <= j < |positions| ==> result[i][j] == t.cells[i][positions[j]]
  {
    result := [];
    for index := 0 to |t.cells|
      invariant |result| == index && forall i :: 0 <= i < index ==> |result[i]| == |positions|
      invariant forall i, j :: 0 <= i < index && 0 <= j < |positions| ==> result[i][j] == t.cells[i][positions[j]]
    {
      var row, chosen: Row := t.cells[index], [];
      for target := 0 to |positions|
        invariant |chosen| == target && forall j :: 0 <= j < target ==> chosen[j] == row[positions[j]]
      {
        chosen := chosen + [row[positions[target]]];
      }
      result := result + [chosen];
    }
  }

  lemma SelectAll(t: Table)
    requires Rectangular(t) && ValidSchema(t.columns)
    ensures AllIn(t.columns, t.columns) && Selected(t, t.columns) == t
  {
    forall i | 0 <= i < |t.cells|
      ensures Projected(t.columns, t.cells[i], t.columns) == t.cells[i]
    {
      forall j | 0 <= j < |t.columns|
        ensures IndexOf(t.columns, t.columns[j]) == j
      {
        IndexUnique(t.columns, j);
      }
    }
  }

  /** Choosing from a choice is choosing at once. */
  lemma SelectTwice(t: Table, names: seq<string>, fewer: seq<string>)
    requires Rectangular(t) && AllIn(names, t.columns) && AllIn(fewer, names)
    ensures AllIn(fewer, t.columns) && Selected(Selected(t, names), fewer) == Selected(t, fewer)
  {
    forall j | 0 <= j < |fewer|
      ensures fewer[j] in t.columns
    {
      assert names[IndexOf(names, fewer[j])] == fewer[j];
    }
    var first := Selected(t, names);
    forall i | 0 <= i < |t.cells|
      ensures Projected(names, first.cells[i], fewer) == Projected(t.columns, t.cells[i], fewer)
    {
    }
  }

  // ---- dropping columns --------------------------------------------------------------

  /** The columns not among the names, in table order. */
  function Remaining(columns: seq<string>, names: seq<string>): seq<string> {
    if columns == [] then [] else
      var before, last := Remaining(columns[..|columns| - 1], names), columns[|columns| - 1];
      if last in names then before else before + [last]
  }

  lemma {:induction false} RemainingIn(columns: seq<string>, names: seq<string>, name: string)
    ensures name in Remaining(columns, names) <==> name in columns && name !in names
  {
    if columns != [] {
      RemainingIn(columns[..|columns| - 1], names, name);
      assert name in columns <==> name in columns[..|columns| - 1] || name == columns[|columns| - 1];
    }
  }

  /** What remains keeps its order. */
  lemma {:induction false} RemainingAdds(columns: seq<string>, more: seq<string>, names: seq<string>)
    ensures Remaining(columns + more, names) == Remaining(columns, names) + Remaining(more, names)
    decreases |more|
  {
    if more == [] {
      assert columns + more == columns;
    } else {
      var rest, all := more[..|more| - 1], columns + more;
      RemainingAdds(columns, rest, names);
      assert all[..|all| - 1] == columns + rest && all[|all| - 1] == more[|more| - 1];
    }
  }

  lemma RemainingAllIn(columns: seq<string>, names: seq<string>)
    ensures AllIn(Remaining(columns, names), columns)
  {
    var kept := Remaining(columns, names);
    forall i | 0 <= i < |kept|
      ensures kept[i] in columns
    {
      RemainingIn(columns, names, kept[i]);
    }
  }

  /** Dropping columns of a table with a valid schema is selecting the others. */
  method Drop(t: Table, names: seq<string>) returns (r: Outcome<Table>)
    requires Rectangular(t)
    ensures r.Value? <==> Distinct(names) && AllIn(names, t.columns)
    ensures r.Raise? ==> r.error == DataError
    ensures r.Value? ==> Rectangular(r.value) && r.value.columns == Remaining(t.columns, names)
    ensures r.Value? && ValidSchema(t.columns) ==>
      AllIn(Remaining(t.columns, names), t.columns) && r.value == Selected(t, Remaining(t.columns, names))
  {
    var removed: set<string> := {};
    for index := 0 to |names|
      invariant Distinct(names[..index]) && AllIn(names[..index], t.columns)
      invariant forall k :: k in removed <==> k in names[..index]
      invariant forall j :: 0 <= j < index ==> names[j] in t.columns
    {
      var name := names[index];
      assert names[..index + 1] == names[..index] + [name];
      if name in removed {
        RepeatedName(names, index);
        return Raise(DataError);
      }
      var position := ColumnPosition(t.columns, name);
      if position.Raise? {
        return Raise(DataError);
      }
      removed := removed + {name};
    }
    assert names[..|names|] == names;
    var kept: seq<string>, positions: seq<nat> := [], [];
    for position := 0 to |t.columns|
      invariant kept == Remaining(t.columns[..position], names) && |positions| == |kept|
      invariant forall j :: 0 <= j < |kept| ==> positions[j] < position && t.columns[positions[j]] == kept[j]
    {
      assert t.columns[..position + 1][..position] == t.columns[..position];
      if t.columns[position] !in removed {
        kept := kept + [t.columns[position]];
        positions := positions + [position];
      }
    }
    assert t.columns[..|t.columns|] == t.columns;
    var result := Gathered(t, positions);
    r := Value(Table(kept, result));
    if ValidSchema(t.columns) {
      RemainingAllIn(t.columns, names);
      GatheredByName(t, kept, positions, result);
    }
  }

  lemma GatheredByName(t: Table, names: seq<string>, positions: seq<nat>, result: seq<Row>)
    requires Rectangular(t) && Distinct(t.columns) && AllIn(names, t.columns) && |positions| == |names|
    requires forall j :: 0 <= j < |names| ==> positions[j] < |t.columns| && t.columns[positions[j]] == names[j]
    requires |result| == |t.cells| && forall i :: 0 <= i < |result| ==> |result[i]| == |positions|
    requires forall i, j :: 0 <= i < |result| && 0 <= j < |positions| ==> result[i][j] == t.cells[i][positions[j]]
    ensures Table(names, result) == Selected(t, names)
  {
    forall i | 0 <= i < |result|
      ensures result[i] == Projected(t.columns, t.cells[i], names)
    {
      forall j | 0 <= j < |names|
        ensures result[i][j] == t.cells[i][IndexOf(t.columns, names[j])]
      {
        IndexUnique(t.columns, positions[j]);
      }
    }
  }

  // ---- renaming a column ---------------------------------------------------------------

  method Rename(t: Table, oldName: string, newName: string) returns (r: Outcome<Table>)
    ensures r == if oldName !in t.columns || newName == "" || (newName != oldName && newName in t.columns)
                 then Raise(DataError) else Value(Renamed(t, oldName, newName))
  {
    var position := ColumnPosition(t.columns, oldName);
    if position.Raise? {
      return Raise(DataError);
    }
    if newName == "" {
      return Raise(DataError);
    }
    if newName != oldName {
      for i := 0 to |t.columns|
        invariant newName !in t.columns[..i]
      {
        if t.columns[i] == newName {
          return Raise(DataError);
        }
      }
    }
    r := Value(Table(t.columns[position.value := newName], t.cells));
  }

  function Renamed(t: Table, oldName: string, newName: string): Table
    requires oldName in t.columns
  {
    Table(t.columns[IndexOf(t.columns, oldName) := newName], t.cells)
  }

  /** An allowed rename keeps the schema valid, and renaming back undoes it. */
  lemma RenameBack(t: Table, oldName: string, newName: string)
    requires ValidSchema(t.columns) && oldName in t.columns
    requires newName != "" && (newName == oldName || newName !in t.columns)
    ensures var renamed := Renamed(t, oldName, newName);
            ValidSchema(renamed.columns) && newName in renamed.columns && Renamed(renamed, newName, oldName) == t
  {
    var p := IndexOf(t.columns, oldName);
    var columns := t.columns[p := newName];
    assert columns[p] == newName;
    assert forall i :: 0 <= i < |columns| ==> columns[i] == if i == p then newName else t.columns[i];
    IndexUnique(columns, p);
    assert columns[p := oldName] == t.columns;
  }

  // ---- records ---------------------------------------------------------------------------

  datatype Record = Record(keys: seq<string>, values: map<string, string>)

  /** A later column of the same name overwrites an earlier one. */
  function ValuesIn(columns: seq<string>, row: Row): map<string, string>
    requires |row| == |columns|
  {
    if columns == [] then map[] else
      var n := |columns| - 1;
      ValuesIn(columns[..n], row[..n])[columns[n] := row[n]]
  }

  lemma {:induction false} ValuesByName(columns: seq<string>, row: Row, i: nat)
    requires |row| == |columns| && i < |columns| && Distinct(columns)
    ensures columns[i] in ValuesIn(columns, row) && ValuesIn(columns, row)[columns[i]] == row[i]
  {
    var n := |columns| - 1;
    if i < n {
      ValuesByName(columns[..n], row[..n], i);
    }
  }

  /** A record has a value for each column of its table and for nothing else. */
  lemma {:induction false} ValuesHaveColumns(columns: seq<string>, row: Row, name: string)
    requires |row| == |columns|
    ensures name in ValuesIn(columns, row) <==> name in columns
  {
    if columns != [] {
      var n := |columns| - 1;
      ValuesHaveColumns(columns[..n], row[..n], name);
      assert name in columns <==> name in columns[..n] || name == columns[n];
    }
  }

  method RecordOf(columns: seq<string>, row: Row) returns (record: Record)
    requires |row| == |columns|
    ensures record == Record(columns, ValuesIn(columns, row))
  {
    var keys: seq<string>, values: map<string, string> := [], map[];
    for position := 0 to |columns|
      invariant keys == columns[..position] && values == ValuesIn(columns[..position], row[..position])
    {
      assert columns[..position + 1][..position] == columns[..position]
           && row[..position + 1][..position] == row[..position];
      keys := keys + [columns[position]];
      values := values[columns[position] := row[position]];
    }
    assert columns[..|columns|] == columns && row[..|columns|] == row;
    record := Record(keys, values);
  }

  ghost function RecordsOf(t: Table): (records: seq<Record>)
    requires Rectangular(t)
    ensures |records| == |t.cells|
  {
    seq(|t.cells|, i requires 0 <= i < |t.cells| => Record(t.columns, ValuesIn(t.columns, t.cells[i])))
  }

  method Rows(t: Table) returns (records: seq<Record>)
    requires Rectangular(t)
    ensures records == RecordsOf(t)
  {
    records := [];
    for index := 0 to |t.cells|
      invariant |records| == index && forall i :: 0 <= i < index ==> records[i] == RecordsOf(t)[i]
    {
      var record := RecordOf(t.columns, t.cells[index]);
      records := records + [record];
    }
  }

  ghost predicate Fits(record: Record, columns: seq<string>) {
    |record.keys| == |columns| && forall j :: 0 <= j < |columns| ==> columns[j] in record.values
  }

  ghost predicate AllFit(records: seq<Record>, columns: seq<string>) {
    forall i :: 0 <= i < |records| ==> Fits(records[i], columns)
  }

  function RowOf(record: Record, columns: seq<string>): (row: Row)
    requires Fits(record, columns)
    ensures |row| == |columns|
  {
    seq(|columns|, j requires 0 <= j < |columns| => record.values[columns[j]])
  }

  /** Its columns are the first record's keys as listed there. */
  ghost function TableOf(records: seq<Record>): Outcome<Table> {
    if records == [] then Value(Table([], []))
    else if ValidSchema(records[0].keys) && AllFit(records, records[0].keys) then
      Value(Table(records[0].keys, seq(|records|, i requires 0 <= i < |records| => RowOf(records[i], records[0].keys))))
    else Raise(DataError)
  }

  /** The cell of a record in a column is the record's value for that column's name, in
      whatever order the record lists its keys. */
  lemma CellsOfRecords(records: seq<Record>, i: nat, j: nat)
    requires TableOf(records).Value? && i < |records| && j < |records[0].keys|
    ensures var t, key := TableOf(records).value, records[0].keys[j];
            && |t.cells| == |records| && t.columns == records[0].keys && Rectangular(t)
            && |t.cells[i]| == |records[0].keys|
            && key in records[i].values && t.cells[i][j] == records[i].values[key]
  {
    assert Fits(records[i], records[0].keys);
  }

  method RequireSchema(columns: seq<string>) returns (valid: bool)
    ensures valid == ValidSchema(columns)
  {
    var seen: set<string> := {};
    for i := 0 to |columns|
      invariant forall k :: k in seen <==> k in columns[..i]
      invariant Distinct(columns[..i]) && "" !in columns[..i]
    {
      assert columns[..i + 1] == columns[..i] + [columns[i]];
      if columns[i] == "" {
        return false;
      }
      if columns[i] in seen {
        RepeatedName(columns, i);
        return false;
      }
      seen := seen + {columns[i]};
    }
    assert columns[..|columns|] == columns;
    valid := true;
  }

  method FromRecords(records: seq<Record>) returns (r: Outcome<Table>)
    ensures r == TableOf(records)
    ensures r.Value? ==> forall i, j :: 0 <= i < |records| && 0 <= j < |records[0].keys| ==>
              && i < |r.value.cells| && j < |r.value.cells[i]| && records[0].keys[j] in records[i].values
              && r.value.cells[i][j] == records[i].values[records[0].keys[j]]
  {
    if records == [] {
      return Value(Table([], []));
    }
    var columns := records[0].keys;
    var valid := RequireSchema(columns);
    if !valid {
      return Raise(DataError);
    }
    var cells: seq<Row> := [];
    for number := 0 to |records|
      invariant |cells| == number && AllFit(records[..number], columns)
      invariant forall i :: 0 <= i < number ==> Fits(records[i], columns) && cells[i] == RowOf(records[i], columns)
    {
      var record := records[number];
      if |record.keys| != |columns| {
        return Raise(DataError);
      }
      var row: Row := [];
      for position := 0 to |columns|
        invariant |row| == position
        invariant forall j :: 0 <= j < position ==> columns[j] in record.values && row[j] == record.values[columns[j]]
      {
        if columns[position] !in record.values {
          return Raise(DataError);
        }
        row := row + [record.values[columns[position]]];
      }
      assert row == RowOf(record, columns);
      cells := cells + [row];
    }
    assert records[..|records|] == records;
    assert TableOf(records).Value? && cells == TableOf(records).value.cells;
    forall i, j | 0 <= i < |records| && 0 <= j < |columns|
      ensures |cells[i]| == |columns| && columns[j] in records[i].values && cells[i][j] == records[i].values[columns[j]]
    {
      CellsOfRecords(records, i, j);
    }
    r := Value(Table(columns, cells));
  }

  /** FromRecords undoes Rows: a table comes back exactly when its schema is valid, or, for
      a table without rows, when it has no columns either. */
  lemma RecordsRoundTrip(t: Table)
    requires Rectangular(t)
    ensures TableOf(RecordsOf(t)) == Value(t) <==> if t.cells == [] then t.columns == [] else ValidSchema(t.columns)
  {
    var records := RecordsOf(t);
    if t.cells != [] && ValidSchema(t.columns) {
      forall i | 0 <= i < |records|
        ensures Fits(records[i], t.columns) && RowOf(records[i], t.columns) == t.cells[i]
      {
        forall j | 0 <= j < |t.columns|
          ensures t.columns[j] in records[i].values && records[i].values[t.columns[j]] == t.cells[i][j]
        {
          ValuesByName(t.columns, t.cells[i], j);
        }
      }
      assert TableOf(records).value.cells == t.cells;
    }
  }
}
