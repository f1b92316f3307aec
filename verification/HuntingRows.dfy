/** A compact hunting answer, as src/hunting/mod.rs makes it: columns once, rows as arrays, and
    whether the answer is cut. */
module HuntingRows {
  import opened Wrappers

  datatype Value =
    | Null | Bool(flag: bool) | Number(number: int) | Str(text: string)
    | Array(items: seq<Value>) | Object(fields: map<string, Value>)

  /** A column; a missing type is `None`. */
  datatype Column = Column(name: string, ty: Option<string>)

  datatype Compacted = Compacted(columns: seq<Column>, truncated: bool, maxRows: nat, rows: seq<Value>)

  function Min(a: nat, b: nat): nat {
    if a < b then a else b
  }

  function Get(v: Value, key: string): Option<Value> {
    if v.Object? && key in v.fields then Some(v.fields[key]) else None
  }

  function GetEither(v: Value, key: string, other: string): Option<Value> {
    if Get(v, key).Some? then Get(v, key) else Get(v, other)
  }

  function AsText(v: Option<Value>): Option<string> {
    if v.Some? && v.value.Str? then Some(v.value.text) else None
  }

  function AsRows(v: Option<Value>): seq<Value> {
    if v.Some? && v.value.Array? then v.value.items else []
  }

  function Results(answer: Value): seq<Value> {
    AsRows(Get(answer, "results"))
  }

  /** The columns a schema names; entries without a textual name are left out. */
  function SchemaColumns(entries: seq<Value>): seq<Column> {
    if entries == [] then []
    else
      var name := AsText(GetEither(entries[0], "name", "Name"));
      (if name.Some? then [Column(name.value, AsText(GetEither(entries[0], "type", "Type")))] else [])
      + SchemaColumns(entries[1..])
  }

  /** The column an entry describes: a textual `name` or, where there is none at all, a `Name`. */
  predicate Describes(entry: Value, c: Column) {
    && GetEither(entry, "name", "Name") == Some(Str(c.name))
    && c.ty == AsText(GetEither(entry, "type", "Type"))
  }

  predicate DescribedIn(entries: seq<Value>, i: int, c: Column) {
    0 <= i < |entries| && Describes(entries[i], c)
  }

  lemma {:induction false} SchemaColumnsExactly(entries: seq<Value>, c: Column)
    ensures c in SchemaColumns(entries) <==> exists i :: DescribedIn(entries, i, c)
    ensures |SchemaColumns(entries)| <= |entries|
  {
    if entries != [] {
      SchemaColumnsExactly(entries[1..], c);
      if i :| DescribedIn(entries[1..], i, c) { assert DescribedIn(entries, i + 1, c); }
      if i :| DescribedIn(entries, i, c) {
        if i > 0 { assert DescribedIn(entries[1..], i - 1, c); }
      }
      if Describes(entries[0], c) { assert DescribedIn(entries, 0, c); }
    }
  }

  /** A row: an object becomes its values in column order, null where it has none. */
  function Cells(columns: seq<Column>, row: Value): Value {
    if row.Object? then
      Array(seq(|columns|, i requires 0 <= i < |columns| =>
        if columns[i].name in row.fields then row.fields[columns[i].name] else Null))
    else row
  }

  function Rows(columns: seq<Column>, results: seq<Value>): seq<Value> {
    seq(|results|, i requires 0 <= i < |results| => Cells(columns, results[i]))
  }

  predicate Distinct(columns: seq<Column>) {
    forall i, j :: 0 <= i < j < |columns| ==> columns[i].name != columns[j].name
  }

  predicate Names(columns: seq<Column>, name: string) {
    exists i :: 0 <= i < |columns| && columns[i].name == name
  }

  /** The columns of an answer: its schema's, or, when that names none, the keys of its first row. */
  predicate ColumnsOf(columns: seq<Column>, answer: Value) {
    var schema := SchemaColumns(AsRows(Get(answer, "schema")));
    if schema != [] then columns == schema
    else if Results(answer) != [] && Results(answer)[0].Object? then
      Distinct(columns) && (forall name :: name in Results(answer)[0].fields ==> Names(columns, name))
      && forall i :: 0 <= i < |columns| ==> columns[i].name in Results(answer)[0].fields && columns[i].ty.None?
    else columns == []
  }

  method KeyColumns(fields: map<string, Value>) returns (columns: seq<Column>)
    ensures Distinct(columns) && (forall name :: name in fields ==> Names(columns, name))
    ensures forall i :: 0 <= i < |columns| ==> columns[i].name in fields && columns[i].ty.None?
  {
    columns := [];
    var left := fields.Keys;
    while left != {}
      invariant left <= fields.Keys && Distinct(columns)
      invariant forall name :: name in fields.Keys - left ==> Names(columns, name)
      invariant forall i :: 0 <= i < |columns| ==> columns[i].name in fields.Keys - left && columns[i].ty.None?
    {
      var name :| name in left;
      ghost var before := columns;
      columns := columns + [Column(name, None)];
      left := left - {name};
      forall n | n in fields.Keys - left ensures Names(columns, n) {
        if n == name {
          assert columns[|before|].name == name;
        } else {
          assert Names(before, n);
          var i :| 0 <= i < |before| && before[i].name == n;
          assert columns[i].name == n;
        }
      }
    }
  }

  /** What a compact answer says: the columns, at most `maxRows` of the rows as they came, and whether
      more came. */
  predicate IsCompact(c: Compacted, answer: Value, maxRows: nat) {
    && ColumnsOf(c.columns, answer) && c.maxRows == maxRows
    && (c.truncated <==> |Results(answer)| > maxRows)
    && c.rows == Rows(c.columns, Results(answer)[..Min(|Results(answer)|, maxRows)])
  }

  method Compact(answer: Value, maxRows: nat) returns (c: Compacted)
    ensures IsCompact(c, answer, maxRows)
  {
    var results := Results(answer);
    var columns := SchemaColumns(AsRows(Get(answer, "schema")));
    if columns == [] && results != [] && results[0].Object? {
      columns := KeyColumns(results[0].fields);
    }
    c := Compacted(columns, |results| > maxRows, maxRows, Rows(columns, results[..Min(|results|, maxRows)]));
  }

  // ------------------------------------------------------------------ what a reader gets back

  /** The object a reader rebuilds from a row and the columns. */
  function Rebuilt(columns: seq<Column>, cells: seq<Value>): map<string, Value>
    requires |columns| == |cells|
  {
    if columns == [] then map[] else Rebuilt(columns[1..], cells[1..])[columns[0].name := cells[0]]
  }

  /** An object read through some columns: absent fields are null. */
  function Through(columns: seq<Column>, fields: map<string, Value>): map<string, Value> {
    map name | name in (set c | c in columns :: c.name) :: if name in fields then fields[name] else Null
  }

  /** From its row of cells an object is rebuilt, field by field, over the columns, even when a
      schema names a column twice. */
  lemma {:induction false} RowRebuilds(columns: seq<Column>, row: Value)
    requires row.Object?
    ensures Cells(columns, row).Array? && |Cells(columns, row).items| == |columns|
    ensures Rebuilt(columns, Cells(columns, row).items) == Through(columns, row.fields)
  {
    var cells := Cells(columns, row).items;
    if columns != [] {
      var more := columns[1..];
      RowRebuilds(more, row);
      assert Cells(more, row).items == cells[1..];
      assert forall c :: c in columns <==> c == columns[0] || c in more;
      var names, moreNames := set c | c in columns :: c.name, set c | c in more :: c.name;
      assert names == moreNames + {columns[0].name};
    }
  }

  /** Without a schema the first row is rebuilt whole. */
  lemma FirstRowRebuildsWhole(columns: seq<Column>, answer: Value)
    requires ColumnsOf(columns, answer) && SchemaColumns(AsRows(Get(answer, "schema"))) == []
    requires Results(answer) != [] && Results(answer)[0].Object?
    ensures Rebuilt(columns, Cells(columns, Results(answer)[0]).items) == Results(answer)[0].fields
  {
    var fields := Results(answer)[0].fields;
    RowRebuilds(columns, Results(answer)[0]);
    forall name ensures name in Through(columns, fields) <==> name in fields {
      if name in fields {
        assert Names(columns, name);
        var i :| 0 <= i < |columns| && columns[i].name == name;
        assert columns[i] in columns;
      }
      if name in Through(columns, fields) {
        var c :| c in columns && c.name == name;
        var i :| 0 <= i < |columns| && columns[i] == c;
      }
    }
  }

  /** The answer's own words: rows and columns are read from `results` and `schema`, a column's name and
      type from `name` and `type`, or from these with a capital where the small ones are not there. */
  lemma AnswerIsRead(fields: map<string, Value>, rows: seq<Value>, entries: seq<Value>, entry: map<string, Value>)
    ensures "results" in fields && fields["results"] == Array(rows) ==> Results(Object(fields)) == rows
    ensures "results" !in fields ==> Results(Object(fields)) == []
    ensures "schema" in fields && fields["schema"] == Array(entries) ==>
              AsRows(Get(Object(fields), "schema")) == entries
    ensures forall n :: "name" in entry && entry["name"] == Str(n) ==>
              SchemaColumns([Object(entry)]) == [Column(n, AsText(GetEither(Object(entry), "type", "Type")))]
    ensures forall n :: "name" !in entry && "Name" in entry && entry["Name"] == Str(n) ==>
              SchemaColumns([Object(entry)]) == [Column(n, AsText(GetEither(Object(entry), "type", "Type")))]
    ensures "name" in entry && !entry["name"].Str? ==> SchemaColumns([Object(entry)]) == []
    ensures "type" in entry && !entry["type"].Str? ==> AsText(GetEither(Object(entry), "type", "Type")).None?
    ensures forall t :: "type" in entry && entry["type"] == Str(t) ==>
              AsText(GetEither(Object(entry), "type", "Type")) == Some(t)
    ensures forall t :: "type" !in entry && "Type" in entry && entry["Type"] == Str(t) ==>
              AsText(GetEither(Object(entry), "type", "Type")) == Some(t)
  {
    assert SchemaColumns([]) == [] && [Object(entry)][1..] == [];
  }

  /** A row of an answer: a cell for each column, the row's value or null. */
  lemma CellsAre(columns: seq<Column>, fields: map<string, Value>, i: nat)
    requires i < |columns|
    ensures var row := Cells(columns, Object(fields));
      && row.Array? && |row.items| == |columns|
      && row.items[i] == if columns[i].name in fields then fields[columns[i].name] else Null
  {
  }

  // ------------------------------------------------------------------ a cut answer

  /** Microsoft Graph returns at most this many rows. */
  const UPSTREAM_CAP: nat := 100000

  /** An answer to `| take take` of a query whose full result is `full`: any rows of it, as many as
      the limit and the service's cap allow. */
  ghost predicate Answers(answer: Value, full: seq<Value>, take: nat) {
    && |Results(answer)| == Min(|full|, Min(take, UPSTREAM_CAP))
    && multiset(Results(answer)) <= multiset(full)
  }

  ghost predicate TellsTruncation(maxRows: nat, full: seq<Value>) {
    forall answer :: Answers(answer, full, maxRows + 1) ==> (|Results(answer)| > maxRows <==> |full| > maxRows)
  }

  lemma SizeOfMultiset(a: seq<Value>, b: seq<Value>)
    requires |a| == |b| && multiset(a) <= multiset(b)
    ensures multiset(a) == multiset(b)
  {
    assert |multiset(b) - multiset(a)| == |multiset(b)| - |multiset(a)|;
  }

  /** Below the service's cap, asking for one row more than the caller's limit tells a cut answer
      from a complete one; an answer that is not cut has every row. */
  lemma TruncationIsExact(answer: Value, full: seq<Value>, maxRows: nat)
    requires maxRows < UPSTREAM_CAP && Answers(answer, full, maxRows + 1)
    ensures |Results(answer)| > maxRows <==> |full| > maxRows
    ensures Min(|Results(answer)|, maxRows) == Min(|full|, maxRows)
    ensures |Results(answer)| <= maxRows ==> multiset(Results(answer)) == multiset(full)
  {
    if |Results(answer)| <= maxRows { SizeOfMultiset(Results(answer), full); }
  }

  /** The limit is right: at the cap and beyond, some cut answer looks complete. */
  lemma TruncationExactly(maxRows: nat)
    ensures (forall full :: TellsTruncation(maxRows, full)) <==> maxRows < 100000
  {
    if maxRows < UPSTREAM_CAP {
      forall full ensures TellsTruncation(maxRows, full) {
        forall answer | Answers(answer, full, maxRows + 1) ensures |Results(answer)| > maxRows <==> |full| > maxRows {
          TruncationIsExact(answer, full, maxRows);
        }
      }
    } else {
      var full: seq<Value> := seq(maxRows + 1, i => Null);
      var some: seq<Value> := full[..UPSTREAM_CAP];
      var answer := Object(map["results" := Array(some)]);
      assert full == some + full[UPSTREAM_CAP..];
      assert Results(answer) == some;
      assert Answers(answer, full, maxRows + 1);
      assert !TellsTruncation(maxRows, full);
    }
  }
}
