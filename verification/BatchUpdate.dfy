/**
  The batched UPDATE (src/common/database/batch-update.ts): validation, the one statement
  UPDATE ... FROM (VALUES ...) it sends, and the loop of single-row updates it stands for.
*/
module BatchUpdates {
  import opened Prelude

  /** A value of the row object; NotScalar covers objects, arrays and undefined. */
  datatype Value = Null | Str(s: string) | Num(n: int) | Bool(b: bool) | DateValue(iso: string) | NotScalar

  datatype Column = Column(name: string, value: Value)

  datatype Key = NumberKey(n: int) | TextKey(s: string)

  datatype UpdateRow = UpdateRow(key: Key, columns: seq<Column>)

  predicate IsScalar(v: Value) {
    !v.NotScalar?
  }

  /** String(key). */
  function KeyText(key: Key): string {
    match key
    case NumberKey(n) => Signed(n)
    case TextKey(s) => s
  }

  /** Object.keys. */
  function Names(columns: seq<Column>): seq<string> {
    seq(|columns|, i requires 0 <= i < |columns| => columns[i].name)
  }

  /** columns[name]; a missing property is undefined. */
  function Lookup(columns: seq<Column>, name: string): Value {
    if columns == [] then NotScalar
    else if columns[0].name == name then columns[0].value
    else Lookup(columns[1..], name)
  }

  lemma {:induction false} LookupAt(columns: seq<Column>, i: nat)
    requires i < |columns| && Distinct(Names(columns))
    ensures Lookup(columns, columns[i].name) == columns[i].value
  {
    if i > 0 {
      assert Names(columns)[0] != Names(columns)[i];
      assert Distinct(Names(columns[1..])) by {
        assert Names(columns[1..]) == Names(columns)[1..];
      }
      LookupAt(columns[1..], i - 1);
    }
  }

  lemma {:induction false} LookupMissing(columns: seq<Column>, name: string)
    requires name !in Names(columns)
    ensures Lookup(columns, name) == NotScalar
  {
    if columns != [] {
      assert Names(columns)[0] == columns[0].name;
      assert Names(columns[1..]) == Names(columns)[1..];
      LookupMissing(columns[1..], name);
    }
  }

  // Identifiers -----------------------------------------------------------------------------------

  function Doubled(s: string): string {
    if s == "" then "" else (if s[0] == '"' then ['"', '"'] else [s[0]]) + Doubled(s[1..])
  }

  function EscapeIdentifier(identifier: string): string {
    "\"" + Doubled(identifier) + "\""
  }

  /** How SQL reads a quoted identifier: up to the first quote that is not doubled. None if unterminated. */
  function ReadQuoted(s: string): Option<(string, string)> {
    if s == "" then None
    else if s[0] != '"' then
      var rest := ReadQuoted(s[1..]);
      if rest == None then None else Some(([s[0]] + rest.value.0, rest.value.1))
    else if |s| >= 2 && s[1] == '"' then
      var rest := ReadQuoted(s[2..]);
      if rest == None then None else Some(("\"" + rest.value.0, rest.value.1))
    else Some(("", s[1..]))
  }

  /** Any name at all survives quoting, and what follows the quotes is untouched. */
  lemma {:induction false} QuotingRoundTrip(identifier: string, after: string)
    requires after == "" || after[0] != '"'
    ensures ReadQuoted((EscapeIdentifier(identifier) + after)[1..]) == Some((identifier, after))
  {
    assert (EscapeIdentifier(identifier) + after)[1..] == Doubled(identifier) + ("\"" + after);
    ReadDoubled(identifier, after);
  }

  lemma {:induction false} ReadDoubled(s: string, after: string)
    requires after == "" || after[0] != '"'
    ensures ReadQuoted(Doubled(s) + ("\"" + after)) == Some((s, after))
  {
    var text := Doubled(s) + ("\"" + after);
    if s == "" {
      assert text == "\"" + after && text[1..] == after;
    } else {
      ReadDoubled(s[1..], after);
      assert s == [s[0]] + s[1..];
      if s[0] == '"' {
        assert text[2..] == Doubled(s[1..]) + ("\"" + after);
      } else {
        assert text[1..] == Doubled(s[1..]) + ("\"" + after);
      }
    }
  }

  // Tables ----------------------------------------------------------------------------------------

  datatype Sql = SqlNull | SqlText(s: string) | SqlNumber(n: int) | SqlBoolean(b: bool)

  type Record = map<string, Sql>

  function ToBindValue(v: Value): Sql
    requires IsScalar(v)
  {
    match v
    case Null => SqlNull
    case Str(s) => SqlText(s)
    case Num(n) => SqlNumber(n)
    case Bool(b) => SqlBoolean(b)
    case DateValue(iso) => SqlText(iso)
  }

  /** One row of the VALUES list. */
  datatype Tuple = Tuple(key: string, values: seq<Sql>)

  predicate HasKey(r: Record, keyColumn: string, key: string) {
    keyColumn in r && r[keyColumn] == SqlText(key)
  }

  /** SET name = v.name, ... */
  function Assign(r: Record, names: seq<string>, values: seq<Sql>): Record
    requires |names| == |values|
  {
    if names == [] then r
    else
      var n := |names| - 1;
      Assign(r, names[..n], values[..n])[names[n] := values[n]]
  }

  /** What the single-row update of one object does to a record it matches. */
  function SetColumns(r: Record, columns: seq<Column>): Record
    requires forall i | 0 <= i < |columns| :: IsScalar(columns[i].value)
  {
    if columns == [] then r
    else
      var n := |columns| - 1;
      SetColumns(r, columns[..n])[columns[n].name := ToBindValue(columns[n].value)]
  }

  /** The validation accepts these: all rows have row 0's columns, at least one, and scalar values only. */
  ghost predicate Acceptable(rows: seq<UpdateRow>) {
    rows == [] ||
    (rows[0].columns != [] &&
     forall i | 0 <= i < |rows| ::
       && NameSet(rows[i].columns) == NameSet(rows[0].columns)
       && forall k | 0 <= k < |rows[i].columns| :: !rows[i].columns[k].value.NotScalar?)
  }

  function NameSet(columns: seq<Column>): set<string> {
    set name | name in Names(columns)
  }

  /** Property names of one object are distinct. */
  ghost predicate AreObjects(rows: seq<UpdateRow>) {
    forall i | 0 <= i < |rows| :: Distinct(Names(rows[i].columns))
  }

  /** What the loops look at in one row: the number of columns, then a scalar under each expected name. */
  ghost predicate PassesChecks(row: UpdateRow, names: seq<string>) {
    |row.columns| == |names| && forall k | 0 <= k < |names| :: IsScalar(Lookup(row.columns, names[k]))
  }

  /** Equal count plus inclusion is equality of column sets. */
  lemma ChecksAreExact(row: UpdateRow, names: seq<string>)
    requires Distinct(Names(row.columns)) && Distinct(names)
    ensures PassesChecks(row, names) <==>
            && NameSet(row.columns) == (set name | name in names)
            && forall k | 0 <= k < |row.columns| :: IsScalar(row.columns[k].value)
  {
    var own, want := NameSet(row.columns), set name | name in names;
    DistinctSize(names);
    DistinctSize(Names(row.columns));
    if PassesChecks(row, names) {
      forall name | name in want ensures name in own {
        if name !in Names(row.columns) {
          LookupMissing(row.columns, name);
        }
      }
      assert own == want + (own - want);
      forall k | 0 <= k < |row.columns| ensures IsScalar(row.columns[k].value) {
        LookupAt(row.columns, k);
        assert Names(row.columns)[k] in own;
      }
    }
    if own == want && forall k | 0 <= k < |row.columns| :: IsScalar(row.columns[k].value) {
      forall k | 0 <= k < |names| ensures IsScalar(Lookup(row.columns, names[k])) {
        assert names[k] in own;
        var i :| 0 <= i < |row.columns| && Names(row.columns)[i] == names[k];
        LookupAt(row.columns, i);
      }
    }
  }

  /** The tuple built for a row, in the order of row 0's columns. */
  function TupleOf(row: UpdateRow, names: seq<string>): Tuple
    requires forall k | 0 <= k < |names| :: IsScalar(Lookup(row.columns, names[k]))
  {
    Tuple(KeyText(row.key),
          seq(|names|, k requires 0 <= k < |names| => ToBindValue(Lookup(row.columns, names[k]))))
  }

  function Tuples(rows: seq<UpdateRow>, names: seq<string>): seq<Tuple>
    requires forall i, k | 0 <= i < |rows| && 0 <= k < |names| :: IsScalar(Lookup(rows[i].columns, names[k]))
  {
    seq(|rows|, i requires 0 <= i < |rows| => TupleOf(rows[i], names))
  }

  // The statement ---------------------------------------------------------------------------------

  /** How many records have one of the keys. */
  function Hits(table: seq<Record>, keyColumn: string, keys: set<string>): nat {
    if table == [] then 0
    else
      var n := |table| - 1;
      Hits(table[..n], keyColumn, keys) + if HasAnyKey(table[n], keyColumn, keys) then 1 else 0
  }

  predicate HasAnyKey(r: Record, keyColumn: string, keys: set<string>) {
    keyColumn in r && r[keyColumn].SqlText? && r[keyColumn].s in keys
  }

  /** Records are counted, each once, whatever number of keys they match. */
  lemma {:induction false} HitsIs(table: seq<Record>, keyColumn: string, keys: set<string>)
    ensures Hits(table, keyColumn, keys) ==
            |set i | 0 <= i < |table| && keyColumn in table[i] && table[i][keyColumn].SqlText?
                     && table[i][keyColumn].s in keys|
  {
    if table != [] {
      var n := |table| - 1;
      var fewer := table[..n];
      HitsIs(fewer, keyColumn, keys);
      var before := set i | 0 <= i < |fewer| && HasAnyKey(fewer[i], keyColumn, keys);
      var after := set i | 0 <= i < |table| && HasAnyKey(table[i], keyColumn, keys);
      forall i ensures i in after <==> i in before || (i == n && HasAnyKey(table[n], keyColumn, keys)) {
        assert 0 <= i < n ==> table[i] == fewer[i];
      }
      if HasAnyKey(table[n], keyColumn, keys) {
        assert after == before + {n};
      } else {
        assert after == before;
      }
      assert before == set i | 0 <= i < |fewer| && keyColumn in fewer[i] && fewer[i][keyColumn].SqlText?
                                && fewer[i][keyColumn].s in keys;
      assert after == set i | 0 <= i < |table| && keyColumn in table[i] && table[i][keyColumn].SqlText?
                               && table[i][keyColumn].s in keys;
    }
  }

  function KeysOf(tuples: seq<Tuple>): set<string> {
    set j | 0 <= j < |tuples| :: tuples[j].key
  }

  /** A record joined with the VALUES list: updated from some tuple with its key, or left alone. */
  ghost predicate Joined(r: Record, r': Record, keyColumn: string, names: seq<string>, tuples: seq<Tuple>) {
    if exists j :: 0 <= j < |tuples| && HasKey(r, keyColumn, tuples[j].key)
    then exists j :: 0 <= j < |tuples| && HasKey(r, keyColumn, tuples[j].key)
                     && |tuples[j].values| == |names| && r' == Assign(r, names, tuples[j].values)
    else r' == r
  }

  /**
    UPDATE t SET name = v.name, ... FROM (VALUES ...) v WHERE t.key = v.key: if several tuples have a
    record's key, SQL does not say which of them is used. The count is of records, not of matches.
  */
  ghost predicate IsStatementResult(before: seq<Record>, after: seq<Record>, count: nat,
                                    keyColumn: string, names: seq<string>, tuples: seq<Tuple>) {
    && |after| == |before| && count == Hits(before, keyColumn, KeysOf(tuples))
    && forall i | 0 <= i < |before| :: Joined(before[i], after[i], keyColumn, names, tuples)
  }

  class Database {
    var table: seq<Record>

    constructor (table: seq<Record>)
      ensures this.table == table
    {
      this.table := table;
    }

    /** The one statement. */
    method UpdateFromValues(keyColumn: string, names: seq<string>, tuples: seq<Tuple>) returns (rowCount: nat)
      requires forall j | 0 <= j < |tuples| :: |tuples[j].values| == |names|
      modifies this
      ensures IsStatementResult(old(table), table, rowCount, keyColumn, names, tuples)
      ensures rowCount == |set i | 0 <= i < |old(table)| && keyColumn in old(table)[i]
                                   && old(table)[i][keyColumn].SqlText?
                                   && old(table)[i][keyColumn].s in KeysOf(tuples)|
    {
      ghost var before := table;
      rowCount := 0;
      for i := 0 to |table|
        invariant |table| == |before| && rowCount == Hits(before[..i], keyColumn, KeysOf(tuples))
        invariant forall k | 0 <= k < i :: Joined(before[k], table[k], keyColumn, names, tuples)
        invariant forall k | i <= k < |before| :: table[k] == before[k]
      {
        assert before[..i + 1][..i] == before[..i];
        var r := table[i];
        if j :| 0 <= j < |tuples| && HasKey(r, keyColumn, tuples[j].key) {
          table := table[i := Assign(r, names, tuples[j].values)];
          rowCount := rowCount + 1;
        }
      }
      assert before[..|before|] == before;
      HitsIs(before, keyColumn, KeysOf(tuples));
    }

    /**
      Rejects exactly the inputs that are not Acceptable, and otherwise runs the statement. The statement
      itself fails if the key column is among the columns: v would have two columns of that name.
    */
    method BatchUpdateWithValues(keyColumn: string, rows: seq<UpdateRow>) returns (result: Result<nat>)
      requires AreObjects(rows)
      modifies this
      ensures rows == [] ==> result == Ok(0)
      ensures result.Err? <==> !Acceptable(rows) || (rows != [] && keyColumn in NameSet(rows[0].columns))
      ensures result.Err? || rows == [] ==> table == old(table)
      ensures result.Ok? && rows != [] ==>
                && BuildsTuples(rows)
                && IsStatementResult(old(table), table, result.value, keyColumn, Names(rows[0].columns),
                                     Tuples(rows, Names(rows[0].columns)))
    {
      if |rows| == 0 {
        return Ok(0);
      }
      var columnNames := Names(rows[0].columns);
      if |columnNames| == 0 {
        return Err("batchUpdateWithValues requires at least one column to update.");
      }
      var ok := Validate(rows, columnNames);
      AcceptableIff(rows);
      if ok.Err? {
        return Err(ok.error);
      }
      var tuples: seq<Tuple> := [];
      for i := 0 to |rows|
        invariant |tuples| == i && forall j | 0 <= j < i :: tuples[j] == TupleOf(rows[j], columnNames)
      {
        assert PassesChecks(rows[i], columnNames);
        tuples := tuples + [TupleOf(rows[i], columnNames)];
      }
      assert tuples == Tuples(rows, columnNames);
      if keyColumn in columnNames {
        return Err("column reference is ambiguous");
      }
      var rowCount := UpdateFromValues(keyColumn, columnNames, tuples);
      return Ok(rowCount);
    }
  }

  ghost predicate BuildsTuples(rows: seq<UpdateRow>) {
    rows != [] && forall i | 0 <= i < |rows| :: PassesChecks(rows[i], Names(rows[0].columns))
  }

  lemma AcceptableIff(rows: seq<UpdateRow>)
    requires AreObjects(rows) && rows != []
    ensures Acceptable(rows) <==> rows[0].columns != [] && BuildsTuples(rows)
  {
    forall i | 0 <= i < |rows|
      ensures PassesChecks(rows[i], Names(rows[0].columns)) <==>
              && NameSet(rows[i].columns) == NameSet(rows[0].columns)
              && forall k | 0 <= k < |rows[i].columns| :: IsScalar(rows[i].columns[k].value)
    {
      ChecksAreExact(rows[i], Names(rows[0].columns));
    }
  }

  /** The two nested validation loops. */
  method Validate(rows: seq<UpdateRow>, columnNames: seq<string>) returns (r: Result<()>)
    requires AreObjects(rows)
    ensures r.Ok? <==> forall i | 0 <= i < |rows| :: PassesChecks(rows[i], columnNames)
  {
    for i := 0 to |rows|
      invariant forall k | 0 <= k < i :: PassesChecks(rows[k], columnNames)
    {
      var row := rows[i];
      if |Names(row.columns)| != |columnNames| {
        assert !PassesChecks(rows[i], columnNames);
        return Err("row declares a different column set than row 0.");
      }
      for k := 0 to |columnNames|
        invariant forall m | 0 <= m < k :: IsScalar(Lookup(row.columns, columnNames[m]))
      {
        if !IsScalar(Lookup(row.columns, columnNames[k])) {
          assert !PassesChecks(rows[i], columnNames);
          return Err("column must be a scalar value.");
        }
      }
      assert PassesChecks(rows[i], columnNames);
    }
    return Ok(());
  }

  // The loop it stands for ----------------------------------------------------------------------------

  ghost predicate Settable(rows: seq<UpdateRow>, keyColumn: string) {
    forall i | 0 <= i < |rows| :: SettableRow(rows[i], keyColumn)
  }

  ghost predicate SettableRow(row: UpdateRow, keyColumn: string) {
    && keyColumn !in NameSet(row.columns)
    && forall k | 0 <= k < |row.columns| :: IsScalar(row.columns[k].value)
  }

  /** UPDATE t SET <the object's own columns> WHERE t.key = <its key> */
  ghost function UpdateOne(table: seq<Record>, keyColumn: string, row: UpdateRow): (after: seq<Record>)
    requires SettableRow(row, keyColumn)
    ensures |after| == |table|
  {
    seq(|table|, i requires 0 <= i < |table| =>
      if HasKey(table[i], keyColumn, KeyText(row.key)) then SetColumns(table[i], row.columns) else table[i])
  }

  /** One update after another, with the sum of the row counts. */
  ghost function LoopUpdate(table: seq<Record>, keyColumn: string, rows: seq<UpdateRow>): (r: (seq<Record>, nat))
    requires Settable(rows, keyColumn)
    ensures |r.0| == |table|
  {
    if rows == [] then (table, 0)
    else
      var n := |rows| - 1;
      var (before, count) := LoopUpdate(table, keyColumn, rows[..n]);
      (UpdateOne(before, keyColumn, rows[n]), count + Hits(before, keyColumn, {KeyText(rows[n].key)}))
  }

  lemma {:induction false} AssignedAt(r: Record, names: seq<string>, values: seq<Sql>, k: nat)
    requires k < |names| == |values| && Distinct(names)
    ensures names[k] in Assign(r, names, values) && Assign(r, names, values)[names[k]] == values[k]
  {
    var n := |names| - 1;
    if k < n {
      assert names[k] == names[..n][k] && names[k] != names[n];
      AssignedAt(r, names[..n], values[..n], k);
    }
  }

  lemma {:induction false} NotAssigned(r: Record, names: seq<string>, values: seq<Sql>, x: string)
    requires |names| == |values| && x !in names
    ensures x in Assign(r, names, values) <==> x in r
    ensures x in r ==> Assign(r, names, values)[x] == r[x]
  {
    if names != [] {
      NotAssigned(r, names[..|names| - 1], values[..|names| - 1], x);
    }
  }

  function BindValues(columns: seq<Column>): seq<Sql>
    requires forall i | 0 <= i < |columns| :: IsScalar(columns[i].value)
  {
    seq(|columns|, i requires 0 <= i < |columns| => ToBindValue(columns[i].value))
  }

  lemma {:induction false} SetColumnsAssigns(r: Record, columns: seq<Column>)
    requires forall i | 0 <= i < |columns| :: IsScalar(columns[i].value)
    ensures SetColumns(r, columns) == Assign(r, Names(columns), BindValues(columns))
  {
    if columns != [] {
      var n := |columns| - 1;
      SetColumnsAssigns(r, columns[..n]);
      assert Names(columns)[..n] == Names(columns[..n]);
      assert BindValues(columns)[..n] == BindValues(columns[..n]);
    }
  }

  /** Assigning a row's tuple is setting the row's own columns, in whatever order the object lists them. */
  lemma TupleSetsColumns(r: Record, row: UpdateRow, names: seq<string>)
    requires Distinct(Names(row.columns)) && Distinct(names) && PassesChecks(row, names)
    requires forall k | 0 <= k < |row.columns| :: IsScalar(row.columns[k].value)
    ensures Assign(r, names, TupleOf(row, names).values) == SetColumns(r, row.columns)
  {
    var own, mine, values := Names(row.columns), BindValues(row.columns), TupleOf(row, names).values;
    ChecksAreExact(row, names);
    SetColumnsAssigns(r, row.columns);
    forall x
      ensures x in Assign(r, names, values) <==> x in Assign(r, own, mine)
      ensures x in Assign(r, names, values) ==> Assign(r, names, values)[x] == Assign(r, own, mine)[x]
    {
      assert x in own <==> x in NameSet(row.columns);
      if x in own {
        assert x in names;
        var i, k :| 0 <= i < |own| && own[i] == x && 0 <= k < |names| && names[k] == x;
        LookupAt(row.columns, i);
        AssignedAt(r, names, values, k);
        AssignedAt(r, own, mine, i);
      } else {
        assert x !in names;
        NotAssigned(r, names, values, x);
        NotAssigned(r, own, mine, x);
      }
    }
  }

  /** Counting with one more key. */
  lemma {:induction false} OneMoreKey(table: seq<Record>, keyColumn: string, keys: set<string>, key: string)
    ensures Hits(table, keyColumn, keys + {key}) ==
            Hits(table, keyColumn, keys) + if key in keys then 0 else Hits(table, keyColumn, {key})
  {
    if key in keys {
      assert keys + {key} == keys;
    } else if table != [] {
      OneMoreKey(table[..|table| - 1], keyColumn, keys, key);
    }
  }

  lemma {:induction false} SameKeysSameHits(a: seq<Record>, b: seq<Record>, keyColumn: string, keys: set<string>)
    requires |a| == |b| && forall i | 0 <= i < |a| :: SameKey(a[i], b[i], keyColumn)
    ensures Hits(a, keyColumn, keys) == Hits(b, keyColumn, keys)
  {
    if a != [] {
      SameKeysSameHits(a[..|a| - 1], b[..|b| - 1], keyColumn, keys);
    }
  }

  ghost predicate SameKey(a: Record, b: Record, keyColumn: string) {
    (keyColumn in a <==> keyColumn in b) && (keyColumn in a ==> a[keyColumn] == b[keyColumn])
  }

  lemma {:induction false} SetKeepsKey(r: Record, columns: seq<Column>, keyColumn: string)
    requires keyColumn !in NameSet(columns) && forall i | 0 <= i < |columns| :: IsScalar(columns[i].value)
    ensures SameKey(SetColumns(r, columns), r, keyColumn)
  {
    if columns != [] {
      var n := |columns| - 1;
      assert Names(columns)[n] == columns[n].name && columns[n].name in NameSet(columns);
      assert Names(columns[..n]) == Names(columns)[..n];
      SetKeepsKey(r, columns[..n], keyColumn);
    }
  }

  lemma {:induction false} LoopKeepsKeys(table: seq<Record>, keyColumn: string, rows: seq<UpdateRow>, i: nat)
    requires Settable(rows, keyColumn) && i < |table|
    ensures SameKey(LoopUpdate(table, keyColumn, rows).0[i], table[i], keyColumn)
  {
    if rows != [] {
      var n := |rows| - 1;
      LoopKeepsKeys(table, keyColumn, rows[..n], i);
      assert SettableRow(rows[n], keyColumn);
      SetKeepsKey(LoopUpdate(table, keyColumn, rows[..n]).0[i], rows[n].columns, keyColumn);
    }
  }

  ghost predicate Matches(r: Record, keyColumn: string, rows: seq<UpdateRow>, j: nat)
    requires j < |rows|
  {
    HasKey(r, keyColumn, KeyText(rows[j].key))
  }

  /** At most one of the rows is meant for this record. */
  ghost predicate MatchedOnce(r: Record, keyColumn: string, rows: seq<UpdateRow>) {
    forall a, b | 0 <= a < b < |rows| :: !(Matches(r, keyColumn, rows, a) && Matches(r, keyColumn, rows, b))
  }

  /** The record every matching row asks for. */
  ghost predicate Rewritten(r: Record, r': Record, keyColumn: string, rows: seq<UpdateRow>)
    requires Settable(rows, keyColumn)
  {
    && (forall j | 0 <= j < |rows| && Matches(r, keyColumn, rows, j) :: r' == SetColumns(r, rows[j].columns))
    && ((forall j | 0 <= j < |rows| :: !Matches(r, keyColumn, rows, j)) ==> r' == r)
  }

  lemma {:induction false} LoopRewrites(table: seq<Record>, keyColumn: string, rows: seq<UpdateRow>, i: nat)
    requires Settable(rows, keyColumn) && i < |table| && MatchedOnce(table[i], keyColumn, rows)
    ensures Rewritten(table[i], LoopUpdate(table, keyColumn, rows).0[i], keyColumn, rows)
  {
    if rows != [] {
      var n := |rows| - 1;
      var r, fewer := table[i], rows[..n];
      forall j | 0 <= j < n ensures Matches(r, keyColumn, fewer, j) <==> Matches(r, keyColumn, rows, j) {
      }
      LoopRewrites(table, keyColumn, fewer, i);
      LoopKeepsKeys(table, keyColumn, fewer, i);
      assert Matches(r, keyColumn, rows, n) <==>
             HasKey(LoopUpdate(table, keyColumn, fewer).0[i], keyColumn, KeyText(rows[n].key));
    }
  }

  ghost function RowKeys(rows: seq<UpdateRow>): set<string> {
    set j | 0 <= j < |rows| :: KeyText(rows[j].key)
  }

  /** Some key occurs twice in the list and also in the table. */
  ghost predicate MatchedDuplicate(table: seq<Record>, keyColumn: string, rows: seq<UpdateRow>) {
    exists a, b :: 0 <= a < b < |rows| && SameKeyText(rows, a, b)
                   && Hits(table, keyColumn, {KeyText(rows[b].key)}) > 0
  }

  ghost predicate SameKeyText(rows: seq<UpdateRow>, a: nat, b: nat)
    requires a < |rows| && b < |rows|
  {
    KeyText(rows[a].key) == KeyText(rows[b].key)
  }

  /** The loop counts a record once for each row that matches it, the statement once. */
  lemma {:induction false} LoopCounts(table: seq<Record>, keyColumn: string, rows: seq<UpdateRow>)
    requires Settable(rows, keyColumn)
    ensures var n := LoopUpdate(table, keyColumn, rows).1;
            && n >= Hits(table, keyColumn, RowKeys(rows))
            && (n == Hits(table, keyColumn, RowKeys(rows)) <==> !MatchedDuplicate(table, keyColumn, rows))
  {
    if rows == [] {
      NoKeysNoHits(table, keyColumn);
      assert RowKeys(rows) == {};
    } else {
      var n := |rows| - 1;
      var fewer, key := rows[..n], KeyText(rows[n].key);
      LoopCounts(table, keyColumn, fewer);
      var before := LoopUpdate(table, keyColumn, fewer).0;
      forall i | 0 <= i < |table| ensures SameKey(before[i], table[i], keyColumn) {
        LoopKeepsKeys(table, keyColumn, fewer, i);
      }
      SameKeysSameHits(before, table, keyColumn, {key});
      OneMoreKey(table, keyColumn, RowKeys(fewer), key);
      RowKeysStep(rows);
      DuplicateStep(table, keyColumn, rows);
    }
  }

  lemma {:induction false} NoKeysNoHits(table: seq<Record>, keyColumn: string)
    ensures Hits(table, keyColumn, {}) == 0
  {
    if table != [] {
      NoKeysNoHits(table[..|table| - 1], keyColumn);
    }
  }

  lemma RowKeysStep(rows: seq<UpdateRow>)
    requires rows != []
    ensures RowKeys(rows) == RowKeys(rows[..|rows| - 1]) + {KeyText(rows[|rows| - 1].key)}
  {
    var n := |rows| - 1;
    forall k | k in RowKeys(rows[..n]) ensures k in RowKeys(rows) {
      var j :| 0 <= j < n && KeyText(rows[..n][j].key) == k;
      assert KeyText(rows[j].key) == k;
    }
    forall k | k in RowKeys(rows) && k != KeyText(rows[n].key) ensures k in RowKeys(rows[..n]) {
      var j :| 0 <= j < |rows| && KeyText(rows[j].key) == k;
      assert KeyText(rows[..n][j].key) == k;
    }
  }

  lemma DuplicateStep(table: seq<Record>, keyColumn: string, rows: seq<UpdateRow>)
    requires rows != []
    ensures var n := |rows| - 1;
            MatchedDuplicate(table, keyColumn, rows) <==>
            || MatchedDuplicate(table, keyColumn, rows[..n])
            || (KeyText(rows[n].key) in RowKeys(rows[..n]) && Hits(table, keyColumn, {KeyText(rows[n].key)}) > 0)
  {
    var n := |rows| - 1;
    var fewer, key := rows[..n], KeyText(rows[n].key);
    if a, b :| 0 <= a < b < |rows| && SameKeyText(rows, a, b) && Hits(table, keyColumn, {KeyText(rows[b].key)}) > 0 {
      if b < n {
        assert SameKeyText(fewer, a, b);
      } else {
        assert KeyText(fewer[a].key) == key;
      }
    }
    if a, b :| 0 <= a < b < n && SameKeyText(fewer, a, b) && Hits(table, keyColumn, {KeyText(fewer[b].key)}) > 0 {
      assert SameKeyText(rows, a, b);
    }
    if key in RowKeys(fewer) {
      var a :| 0 <= a < n && KeyText(fewer[a].key) == key;
      assert SameKeyText(rows, a, n);
    }
  }

  // The main result -----------------------------------------------------------------------------------

  ghost predicate DistinctKeys(rows: seq<UpdateRow>) {
    forall a, b | 0 <= a < b < |rows| :: !SameKeyText(rows, a, b)
  }

  /** The same rows, each once, in another order. */
  ghost predicate IsReordering(order: seq<UpdateRow>, rows: seq<UpdateRow>) {
    DistinctKeys(order) && DistinctKeys(rows) && forall row :: row in order <==> row in rows
  }

  ghost predicate Proper(rows: seq<UpdateRow>, keyColumn: string) {
    rows != [] && AreObjects(rows) && Acceptable(rows) && keyColumn !in NameSet(rows[0].columns)
  }

  lemma ProperIsSettable(rows: seq<UpdateRow>, keyColumn: string)
    requires Proper(rows, keyColumn)
    ensures Settable(rows, keyColumn) && BuildsTuples(rows)
  {
    AcceptableIff(rows);
  }

  /** For a record with at most one row, the join and the loop leave the same. */
  lemma JoinedIsRewritten(r: Record, r': Record, keyColumn: string, rows: seq<UpdateRow>)
    requires Proper(rows, keyColumn) && MatchedOnce(r, keyColumn, rows)
    requires Settable(rows, keyColumn) && BuildsTuples(rows)
    ensures var names := Names(rows[0].columns);
            Joined(r, r', keyColumn, names, Tuples(rows, names)) <==> Rewritten(r, r', keyColumn, rows)
  {
    var names := Names(rows[0].columns);
    var tuples := Tuples(rows, names);
    forall j | 0 <= j < |rows|
      ensures Matches(r, keyColumn, rows, j) <==> HasKey(r, keyColumn, tuples[j].key)
      ensures |tuples[j].values| == |names|
      ensures Assign(r, names, tuples[j].values) == SetColumns(r, rows[j].columns)
    {
      TupleSetsColumns(r, rows[j], names);
    }
    if j :| 0 <= j < |tuples| && HasKey(r, keyColumn, tuples[j].key) {
      assert Matches(r, keyColumn, rows, j);
      assert forall m | 0 <= m < |tuples| && HasKey(r, keyColumn, tuples[m].key) :: m == j;
    } else {
      assert forall m | 0 <= m < |rows| :: !Matches(r, keyColumn, rows, m);
    }
  }

  /** The text in the key column is the row's key, written out. */
  predicate Targets(row: UpdateRow, r: Record, keyColumn: string) {
    && keyColumn in r && r[keyColumn].SqlText?
    && match row.key
       case TextKey(s) => r[keyColumn].s == s
       case NumberKey(n) => r[keyColumn].s == Signed(n)
  }

  /** The column holds what the object's property was. */
  predicate Stands(q: Sql, v: Value) {
    match v
    case Null => q == SqlNull
    case Str(s) => q == SqlText(s)
    case Num(n) => q == SqlNumber(n)
    case Bool(b) => q == SqlBoolean(b)
    case DateValue(iso) => q == SqlText(iso)
    case NotScalar => false
  }

  /** A record that no row targets stays; one that a row targets takes its values, and keeps its other columns. */
  lemma StatementWrites(r: Record, r': Record, keyColumn: string, rows: seq<UpdateRow>, j: nat)
    requires Proper(rows, keyColumn) && BuildsTuples(rows)
    requires Joined(r, r', keyColumn, Names(rows[0].columns), Tuples(rows, Names(rows[0].columns)))
    requires forall a, b | 0 <= a < b < |rows| :: !(Targets(rows[a], r, keyColumn) && Targets(rows[b], r, keyColumn))
    ensures (forall i | 0 <= i < |rows| :: !Targets(rows[i], r, keyColumn)) ==> r' == r
    ensures j < |rows| && Targets(rows[j], r, keyColumn) ==>
              && (forall k | 0 <= k < |rows[j].columns| ::
                    var column := rows[j].columns[k];
                    column.name in r' && Stands(r'[column.name], column.value))
              && forall x | x !in NameSet(rows[j].columns) :: (x in r' <==> x in r) && (x in r ==> r'[x] == r[x])
  {
    ProperIsSettable(rows, keyColumn);
    forall i | 0 <= i < |rows| ensures Matches(r, keyColumn, rows, i) <==> Targets(rows[i], r, keyColumn) {
    }
    JoinedIsRewritten(r, r', keyColumn, rows);
    if j < |rows| && Targets(rows[j], r, keyColumn) {
      assert Matches(r, keyColumn, rows, j) && SettableRow(rows[j], keyColumn);
      ColumnsStand(r, rows[j].columns);
    }
  }

  lemma ColumnsStand(r: Record, columns: seq<Column>)
    requires Distinct(Names(columns)) && forall i | 0 <= i < |columns| :: IsScalar(columns[i].value)
    ensures var r' := SetColumns(r, columns);
            && (forall k | 0 <= k < |columns| :: columns[k].name in r' && Stands(r'[columns[k].name], columns[k].value))
            && forall x | x !in NameSet(columns) :: (x in r' <==> x in r) && (x in r ==> r'[x] == r[x])
  {
    var r' := SetColumns(r, columns);
    SetColumnsAssigns(r, columns);
    forall k | 0 <= k < |columns| ensures columns[k].name in r' && Stands(r'[columns[k].name], columns[k].value) {
      AssignedAt(r, Names(columns), BindValues(columns), k);
    }
    forall x | x !in NameSet(columns) ensures (x in r' <==> x in r) && (x in r ==> r'[x] == r[x]) {
      NotAssigned(r, Names(columns), BindValues(columns), x);
    }
  }

  lemma SameKeySets(rows: seq<UpdateRow>)
    requires BuildsTuples(rows)
    ensures KeysOf(Tuples(rows, Names(rows[0].columns))) == RowKeys(rows)
  {
    var tuples := Tuples(rows, Names(rows[0].columns));
    forall j | 0 <= j < |rows| ensures tuples[j].key == KeyText(rows[j].key) {
    }
    forall k | k in RowKeys(rows) ensures k in KeysOf(tuples) {
      var j :| 0 <= j < |rows| && KeyText(rows[j].key) == k;
      assert tuples[j].key == k;
    }
  }

  /** Reordering changes neither what the rows ask for nor which keys there are. */
  lemma ReorderingKeepsMeaning(r: Record, r': Record, keyColumn: string, order: seq<UpdateRow>, rows: seq<UpdateRow>)
    requires Settable(order, keyColumn) && Settable(rows, keyColumn) && IsReordering(order, rows)
    requires Rewritten(r, r', keyColumn, order)
    ensures Rewritten(r, r', keyColumn, rows)
  {
    forall j | 0 <= j < |rows| && Matches(r, keyColumn, rows, j) ensures r' == SetColumns(r, rows[j].columns) {
      assert rows[j] in order;
      var i :| 0 <= i < |order| && order[i] == rows[j];
      assert Matches(r, keyColumn, order, i);
    }
    if forall j | 0 <= j < |rows| :: !Matches(r, keyColumn, rows, j) {
      forall i | 0 <= i < |order| ensures !Matches(r, keyColumn, order, i) {
        assert order[i] in rows;
        var j :| 0 <= j < |rows| && rows[j] == order[i];
        assert !Matches(r, keyColumn, rows, j);
      }
    }
  }

  lemma ReorderingKeepsKeys(order: seq<UpdateRow>, rows: seq<UpdateRow>)
    requires IsReordering(order, rows)
    ensures RowKeys(order) == RowKeys(rows)
  {
    forall k | k in RowKeys(order) ensures k in RowKeys(rows) {
      var i :| 0 <= i < |order| && KeyText(order[i].key) == k;
      assert order[i] in rows;
      var j :| 0 <= j < |rows| && rows[j] == order[i];
      assert KeyText(rows[j].key) == k;
    }
    forall k | k in RowKeys(rows) ensures k in RowKeys(order) {
      var j :| 0 <= j < |rows| && KeyText(rows[j].key) == k;
      assert rows[j] in order;
      var i :| 0 <= i < |order| && order[i] == rows[j];
      assert KeyText(order[i].key) == k;
    }
  }

  lemma DistinctMatchOnce(r: Record, keyColumn: string, rows: seq<UpdateRow>)
    requires DistinctKeys(rows)
    ensures MatchedOnce(r, keyColumn, rows)
  {
    forall a, b | 0 <= a < b < |rows| ensures !(Matches(r, keyColumn, rows, a) && Matches(r, keyColumn, rows, b)) {
      assert !SameKeyText(rows, a, b);
    }
  }

  /** What two functions of a record agree on, they are: the rewriting is unique. */
  lemma RewritingIsUnique(r: Record, a: Record, b: Record, keyColumn: string, rows: seq<UpdateRow>)
    requires Settable(rows, keyColumn) && Rewritten(r, a, keyColumn, rows) && Rewritten(r, b, keyColumn, rows)
    ensures a == b
  {
    if j :| 0 <= j < |rows| && Matches(r, keyColumn, rows, j) {
    } else {
    }
  }

  /**
    With distinct keys the one statement has one possible result: the table and the count that the
    single-row updates give, in any order.
  */
  lemma StatementIsTheLoop(before: seq<Record>, after: seq<Record>, count: nat, keyColumn: string,
                           rows: seq<UpdateRow>, order: seq<UpdateRow>)
    requires Proper(rows, keyColumn) && IsReordering(order, rows)
    ensures BuildsTuples(rows) && Settable(order, keyColumn)
    ensures var names := Names(rows[0].columns);
            IsStatementResult(before, after, count, keyColumn, names, Tuples(rows, names)) <==>
            (after, count) == LoopUpdate(before, keyColumn, order)
  {
    ProperIsSettable(rows, keyColumn);
    OrderIsSettable(order, rows, keyColumn);
    var names := Names(rows[0].columns);
    var loop := LoopUpdate(before, keyColumn, order);
    SameKeySets(rows);
    ReorderingKeepsKeys(order, rows);
    LoopCounts(before, keyColumn, order);
    assert !MatchedDuplicate(before, keyColumn, order);
    if |after| == |before| {
      forall i | 0 <= i < |before|
        ensures Joined(before[i], after[i], keyColumn, names, Tuples(rows, names)) <==> after[i] == loop.0[i]
      {
        RecordAgrees(before, keyColumn, rows, order, i, after[i]);
      }
      assert after == loop.0 <==> forall i | 0 <= i < |before| :: after[i] == loop.0[i];
    }
  }

  lemma RecordAgrees(before: seq<Record>, keyColumn: string, rows: seq<UpdateRow>, order: seq<UpdateRow>, i: nat,
                     r': Record)
    requires Proper(rows, keyColumn) && Settable(rows, keyColumn) && BuildsTuples(rows)
    requires IsReordering(order, rows) && Settable(order, keyColumn) && i < |before|
    ensures var names := Names(rows[0].columns);
            Joined(before[i], r', keyColumn, names, Tuples(rows, names)) <==>
            r' == LoopUpdate(before, keyColumn, order).0[i]
  {
    var r, looped := before[i], LoopUpdate(before, keyColumn, order).0[i];
    DistinctMatchOnce(r, keyColumn, order);
    DistinctMatchOnce(r, keyColumn, rows);
    LoopRewrites(before, keyColumn, order, i);
    ReorderingKeepsMeaning(r, looped, keyColumn, order, rows);
    JoinedIsRewritten(r, r', keyColumn, rows);
    if Rewritten(r, r', keyColumn, rows) {
      RewritingIsUnique(r, r', looped, keyColumn, rows);
    }
  }

  lemma OrderIsSettable(order: seq<UpdateRow>, rows: seq<UpdateRow>, keyColumn: string)
    requires Settable(rows, keyColumn) && forall row :: row in order <==> row in rows
    ensures Settable(order, keyColumn)
  {
    forall i | 0 <= i < |order| ensures SettableRow(order[i], keyColumn) {
      assert order[i] in rows;
    }
  }

  /** Without that assumption: the statement agrees with the loop exactly when no repeated key is in the table. */
  lemma SameAsLoopIff(before: seq<Record>, after: seq<Record>, count: nat, keyColumn: string, rows: seq<UpdateRow>)
    requires Proper(rows, keyColumn) && Settable(rows, keyColumn) && BuildsTuples(rows)
    requires IsStatementResult(before, after, count, keyColumn, Names(rows[0].columns),
                               Tuples(rows, Names(rows[0].columns)))
    ensures (after, count) == LoopUpdate(before, keyColumn, rows) <==> !MatchedDuplicate(before, keyColumn, rows)
  {
    SameKeySets(rows);
    LoopCounts(before, keyColumn, rows);
    if !MatchedDuplicate(before, keyColumn, rows) {
      forall i | 0 <= i < |before| ensures after[i] == LoopUpdate(before, keyColumn, rows).0[i] {
        UnmatchedDuplicates(before, keyColumn, rows, i);
        LoopRewrites(before, keyColumn, rows, i);
        JoinedIsRewritten(before[i], after[i], keyColumn, rows);
        RewritingIsUnique(before[i], after[i], LoopUpdate(before, keyColumn, rows).0[i], keyColumn, rows);
      }
      assert after == LoopUpdate(before, keyColumn, rows).0;
    }
  }

  lemma UnmatchedDuplicates(table: seq<Record>, keyColumn: string, rows: seq<UpdateRow>, i: nat)
    requires i < |table| && !MatchedDuplicate(table, keyColumn, rows)
    ensures MatchedOnce(table[i], keyColumn, rows)
  {
    forall a, b | 0 <= a < b < |rows| && Matches(table[i], keyColumn, rows, a) && Matches(table[i], keyColumn, rows, b)
      ensures false
    {
      assert SameKeyText(rows, a, b);
      PresentIsHit(table, keyColumn, KeyText(rows[b].key), i);
    }
  }

  lemma {:induction false} PresentIsHit(table: seq<Record>, keyColumn: string, key: string, i: nat)
    requires i < |table| && HasKey(table[i], keyColumn, key)
    ensures Hits(table, keyColumn, {key}) > 0
  {
    if i < |table| - 1 {
      PresentIsHit(table[..|table| - 1], keyColumn, key, i);
    }
  }

  /** The number 1 and the text "1" are one key to the statement: it updates one record once, the loop twice. */
  lemma CollidingKeysDiffer() returns (before: seq<Record>, after: seq<Record>, count: nat, rows: seq<UpdateRow>)
    ensures |rows| == 2 && rows[0].key != rows[1].key && Proper(rows, "id")
    ensures Settable(rows, "id") && BuildsTuples(rows)
    ensures IsStatementResult(before, after, count, "id", Names(rows[0].columns), Tuples(rows, Names(rows[0].columns)))
    ensures (after, count) != LoopUpdate(before, "id", rows)
  {
    var r, names := map["id" := SqlText("1")], ["x"];
    rows := [UpdateRow(NumberKey(1), [Column("x", Num(1))]), UpdateRow(TextKey("1"), [Column("x", Num(2))])];
    before, after, count := [r], [r["x" := SqlNumber(1)]], 1;
    assert KeyText(NumberKey(1)) == "1" by {
      assert Digit(1) == '1';
    }
    assert Names(rows[0].columns) == names && Names(rows[1].columns) == names;
    ProperIsSettable(rows, "id");
    assert names[..0] == [] && Assign(r, names, [SqlNumber(1)]) == r["x" := SqlNumber(1)];
    var tuples := Tuples(rows, names);
    assert tuples[0] == Tuple("1", [SqlNumber(1)]) && tuples[1].key == "1";
    assert before[..0] == [] && KeysOf(tuples) == {"1"};
    assert SameKeyText(rows, 0, 1) && Hits(before, "id", {"1"}) == 1;
    SameAsLoopIff(before, after, count, "id", rows);
  }
}
