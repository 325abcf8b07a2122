/** The layout of a CREATE TABLE statement around its entries. */
module SqlLayout {
  import opened Text

  function Indented(entries: seq<string>): (r: seq<string>)
    ensures |r| == |entries| && forall i :: 0 <= i < |entries| ==> r[i] == "\n  " + entries[i]
  {
    seq(|entries|, i requires 0 <= i < |entries| => "\n  " + entries[i])
  }

  /** The text between the parentheses. */
  function Body(entries: seq<string>): string {
    (if entries == [] then "\n" else Join(Indented(entries), ",")) + "\n"
  }

  function Table(head: string, entries: seq<string>, engine: string): string {
    head + "(" + Body(entries) + ")" + engine + ";"
  }

  function KeyClause(quoted: seq<string>): string {
    "PRIMARY KEY (" + Join(quoted, ", ") + ")"
  }

  /** The text so far: the open parenthesis and the first entries. */
  function Opened(head: string, entries: seq<string>): string {
    head + "(" + if entries == [] then "\n" else Join(Indented(entries), ",")
  }

  function Padded(entries: seq<string>): (r: seq<string>)
    ensures |r| == |entries| && forall i :: 0 <= i < |entries| ==> r[i] == "  " + entries[i]
  {
    seq(|entries|, i requires 0 <= i < |entries| => "  " + entries[i])
  }

  /** A list of texts joined with ",\n", each behind two spaces and the whole behind a line break, is the list
      joined with commas, each behind a line break and two spaces. */
  lemma {:induction false} IndentedJoin(entries: seq<string>)
    requires entries != []
    ensures "\n" + Join(Padded(entries), ",\n") == Join(Indented(entries), ",")
  {
    var padded := Padded(entries);
    assert "\n" + padded[0] == "\n  " + entries[0];
    if |entries| > 1 {
      IndentedJoin(entries[1..]);
      assert Indented(entries)[1..] == Indented(entries[1..]);
      assert padded[1..] == Padded(entries[1..]);
      var rest := Join(padded[1..], ",\n");
      assert "\n" + (padded[0] + ",\n" + rest) == ("\n" + padded[0]) + "," + ("\n" + rest);
    }
  }

  lemma {:induction false} EntryAppended(head: string, entries: seq<string>, entry: string)
    requires entries != []
    ensures Opened(head, entries) + ",\n  " + entry == Opened(head, entries + [entry])
  {
    assert Indented(entries + [entry]) == Indented(entries) + ["\n  " + entry];
    JoinSnoc(Indented(entries), "\n  " + entry, ",");
  }

  lemma {:induction false} FirstWritten(head: string, columnDefs: seq<string>)
    ensures head + "(\n" + Join(Padded(columnDefs), ",\n") == Opened(head, columnDefs)
  {
    if columnDefs != [] {
      IndentedJoin(columnDefs);
    }
    assert head + "(\n" + Join(Padded(columnDefs), ",\n") == head + "(" + ("\n" + Join(Padded(columnDefs), ",\n"));
  }

  method WriteIndexes(head: string, ghost columns: seq<string>, indexes: seq<string>, text: string)
    returns (sql: string)
    requires text == Opened(head, columns) && (columns == [] ==> indexes == [])
    ensures sql == Opened(head, columns + indexes)
  {
    sql := text;
    assert columns + indexes[..0] == columns;
    for i := 0 to |indexes|
      invariant sql == Opened(head, columns + indexes[..i])
    {
      sql := sql + ",\n  " + indexes[i];
      EntryAppended(head, columns + indexes[..i], indexes[i]);
      assert columns + indexes[..i + 1] == columns + indexes[..i] + [indexes[i]];
    }
    assert indexes[..|indexes|] == indexes;
  }

  /** The writing half of buildCreateTable: header, column definitions, key clause, indexes, engine. */
  method WriteTable(head: string, columnDefs: seq<string>, primaryKeys: seq<string>, indexes: seq<string>,
                    engine: string)
    returns (sql: string)
    requires columnDefs == [] ==> primaryKeys == [] && indexes == []
    ensures sql ==
            Table(head, columnDefs + (if primaryKeys == [] then [] else [KeyClause(primaryKeys)]) + indexes, engine)
  {
    sql := head + "(\n" + Join(Padded(columnDefs), ",\n");
    FirstWritten(head, columnDefs);
    ghost var entries := columnDefs + if primaryKeys == [] then [] else [KeyClause(primaryKeys)];
    if |primaryKeys| > 0 {
      sql := sql + ",\n  " + KeyClause(primaryKeys);
      EntryAppended(head, columnDefs, KeyClause(primaryKeys));
    } else {
      assert entries == columnDefs;
    }
    sql := WriteIndexes(head, entries, indexes, sql);
    sql := sql + "\n)" + engine + ";";
    Closed(head, entries + indexes, engine);
  }

  lemma {:induction false} Closed(head: string, entries: seq<string>, engine: string)
    ensures Opened(head, entries) + "\n)" + engine + ";" == Table(head, entries, engine)
  {
    var open := head + "(";
    var inner := if entries == [] then "\n" else Join(Indented(entries), ",");
    assert (open + inner) + "\n)" == open + (inner + "\n") + ")";
  }
}

/** The CREATE TABLE printer: dialects, column definitions, keys and inline indexes. */
module SqlDdl {
  import opened Text
  import opened SqlScan
  import opened SqlLayout

  datatype Dialect = MySQL | PostgreSQL | SQLite | SQLServer

  /** A column of the model, as its struct field and tag describe it. An index tag of "true" asks for a
      generated name; "" means no index. */
  datatype Column = Column(
    name: string,
    sqlType: string,
    primaryKey: bool,
    autoIncrement: bool,
    notNull: bool,
    default: string,
    comment: string,
    index: string,
    uniqueIndex: string)

  function Quote(d: Dialect, name: string): string {
    match d
    case MySQL => "`" + name + "`"
    case PostgreSQL => "\"" + name + "\""
    case SQLite => "\"" + name + "\""
    case SQLServer => "[" + name + "]"
  }

  function AutoIncrementKeyword(d: Dialect): string {
    match d
    case MySQL => "AUTO_INCREMENT"
    case PostgreSQL => ""
    case SQLite => "AUTOINCREMENT"
    case SQLServer => "IDENTITY(1,1)"
  }

  predicate IsInlineKey(d: Dialect, c: Column) {
    d.SQLite? && c.primaryKey && c.autoIncrement
  }

  /** The parts of a column definition after the name. */
  function ColumnParts(d: Dialect, c: Column): seq<string>
  {
    [c.sqlType] +
    if IsInlineKey(d, c) then ["PRIMARY KEY", AutoIncrementKeyword(d)]
    else
      (if c.notNull || c.primaryKey then ["NOT NULL"] else []) +
      (if c.autoIncrement && AutoIncrementKeyword(d) != "" then [AutoIncrementKeyword(d)] else []) +
      (if c.default != "" then ["DEFAULT " + c.default] else []) +
      (if c.comment != "" && d.MySQL? then ["COMMENT '" + EscapeString(c.comment) + "'"] else [])
  }

  function ColumnDef(d: Dialect, c: Column): string
  {
    Join([Quote(d, c.name)] + ColumnParts(d, c), " ")
  }

  // ---------------------------------------------------------------- inline indexes

  /** An inline index: its columns are gathered from every field that names it. */
  datatype IndexSpec = IndexSpec(name: string, unique: bool, columns: seq<string>)

  function IndexName(raw: string, unique: bool, table: string, column: string): string {
    if raw == "true" then (if unique then "uk" else "idx") + "_" + table + "_" + column else raw
  }

  /** One more column for the index of that name and kind, which is put at the end if it is new. */
  function AddColumn(specs: seq<IndexSpec>, name: string, unique: bool, column: string): seq<IndexSpec> {
    if specs == [] then [IndexSpec(name, unique, [column])]
    else if specs[0].name == name && specs[0].unique == unique then
      [specs[0].(columns := specs[0].columns + [column])] + specs[1..]
    else [specs[0]] + AddColumn(specs[1..], name, unique, column)
  }

  function AddTag(specs: seq<IndexSpec>, raw: string, unique: bool, table: string, column: string): seq<IndexSpec> {
    if raw == "" then specs else AddColumn(specs, IndexName(raw, unique, table, column), unique, column)
  }

  function Indexes(table: string, columns: seq<Column>): seq<IndexSpec> {
    if columns == [] then []
    else
      var init := Indexes(table, columns[..|columns| - 1]);
      var c := columns[|columns| - 1];
      AddTag(AddTag(init, c.index, false, table, c.name), c.uniqueIndex, true, table, c.name)
  }

  function QuoteAll(d: Dialect, names: seq<string>): (r: seq<string>)
    ensures |r| == |names| && forall i :: 0 <= i < |names| ==> r[i] == Quote(d, names[i])
  {
    seq(|names|, i requires 0 <= i < |names| => Quote(d, names[i]))
  }

  function IndexText(d: Dialect, spec: IndexSpec): string {
    (if spec.unique then "UNIQUE INDEX" else "INDEX") + " " + Quote(d, spec.name) + " (" +
      Join(QuoteAll(d, spec.columns), ", ") + ")"
  }

  function IndexTexts(d: Dialect, specs: seq<IndexSpec>): (r: seq<string>)
    ensures |r| == |specs| && forall i :: 0 <= i < |specs| ==> r[i] == IndexText(d, specs[i])
  {
    seq(|specs|, i requires 0 <= i < |specs| => IndexText(d, specs[i]))
  }

  /** buildInlineIndexes keeps the specs in a map under "unique:name" beside a list of keys in order. */
  method BuildInlineIndexes(d: Dialect, table: string, columns: seq<Column>) returns (texts: seq<string>)
    ensures texts == if d.MySQL? then IndexTexts(d, Indexes(table, columns)) else []
  {
    if !d.MySQL? {
      return [];
    }
    var order: seq<(bool, string)> := [];
    var specs: map<(bool, string), seq<string>> := map[];
    ghost var list: seq<IndexSpec> := [];
    for i := 0 to |columns|
      invariant list == Indexes(table, columns[..i])
      invariant Tracks(order, specs, list)
    {
      assert columns[..i + 1][..i] == columns[..i];
      var c := columns[i];
      if c.index != "" {
        order, specs := AddSpec(order, specs, list, IndexName(c.index, false, table, c.name), false, c.name);
      }
      list := AddTag(list, c.index, false, table, c.name);
      if c.uniqueIndex != "" {
        order, specs := AddSpec(order, specs, list, IndexName(c.uniqueIndex, true, table, c.name), true, c.name);
      }
      list := AddTag(list, c.uniqueIndex, true, table, c.name);
    }
    assert columns[..|columns|] == columns;
    texts := WriteSpecs(d, order, specs, list);
  }

  method WriteSpecs(d: Dialect, order: seq<(bool, string)>, specs: map<(bool, string), seq<string>>,
                    ghost list: seq<IndexSpec>)
    returns (texts: seq<string>)
    requires Tracks(order, specs, list)
    ensures texts == IndexTexts(d, list)
  {
    texts := [];
    for i := 0 to |order|
      invariant |texts| == i
      invariant forall k :: 0 <= k < i ==> texts[k] == IndexText(d, list[k])
    {
      var (unique, name) := order[i];
      texts := texts + [IndexText(d, IndexSpec(name, unique, specs[order[i]]))];
    }
  }

  /** The map and the order list together stand for the list of specs. */
  ghost predicate Tracks(order: seq<(bool, string)>, specs: map<(bool, string), seq<string>>, list: seq<IndexSpec>) {
    && |order| == |list|
    && (forall i :: 0 <= i < |order| ==>
        order[i] in specs && list[i] == IndexSpec(order[i].1, order[i].0, specs[order[i]]))
    && (forall k :: k in specs ==> k in order)
    && (forall i, j :: 0 <= i < j < |order| ==> order[i] != order[j])
  }

  method AddSpec(order: seq<(bool, string)>, specs: map<(bool, string), seq<string>>, ghost list: seq<IndexSpec>,
                 name: string, unique: bool, column: string)
    returns (order': seq<(bool, string)>, specs': map<(bool, string), seq<string>>)
    requires Tracks(order, specs, list)
    ensures Tracks(order', specs', AddColumn(list, name, unique, column))
  {
    var key := (unique, name);
    if key in specs {
      order', specs' := order, specs[key := specs[key] + [column]];
      ghost var k :| 0 <= k < |order| && order[k] == key;
      AddColumnAt(list, name, unique, column, k);
    } else {
      order', specs' := order + [key], specs[key := [column]];
      AddColumnLast(list, name, unique, column);
    }
  }

  predicate IsFor(spec: IndexSpec, name: string, unique: bool) {
    spec.name == name && spec.unique == unique
  }

  /** A column for an index that is there joins the columns of that index. */
  lemma {:induction false} AddColumnAt(specs: seq<IndexSpec>, name: string, unique: bool, column: string, k: nat)
    requires k < |specs| && IsFor(specs[k], name, unique)
    requires forall i :: 0 <= i < k ==> !IsFor(specs[i], name, unique)
    ensures AddColumn(specs, name, unique, column) == specs[k := specs[k].(columns := specs[k].columns + [column])]
  {
    if k > 0 {
      assert !IsFor(specs[0], name, unique);
      AddColumnAt(specs[1..], name, unique, column, k - 1);
    }
  }

  /** A column for a new index starts that index at the end. */
  lemma {:induction false} AddColumnLast(specs: seq<IndexSpec>, name: string, unique: bool, column: string)
    requires forall i :: 0 <= i < |specs| ==> !IsFor(specs[i], name, unique)
    ensures AddColumn(specs, name, unique, column) == specs + [IndexSpec(name, unique, [column])]
  {
    if specs != [] {
      assert !IsFor(specs[0], name, unique);
      AddColumnLast(specs[1..], name, unique, column);
    }
  }

  // ---------------------------------------------------------------- CREATE TABLE

  function ColumnDefs(d: Dialect, columns: seq<Column>): (r: seq<string>)
    ensures |r| == |columns| && forall i :: 0 <= i < |columns| ==> r[i] == ColumnDef(d, columns[i])
  {
    seq(|columns|, i requires 0 <= i < |columns| => ColumnDef(d, columns[i]))
  }

  /** The names of the key columns that go into the PRIMARY KEY clause. */
  function KeyNames(d: Dialect, columns: seq<Column>): seq<string> {
    if columns == [] then []
    else
      var init := KeyNames(d, columns[..|columns| - 1]);
      var c := columns[|columns| - 1];
      if c.primaryKey && !IsInlineKey(d, c) then init + [c.name] else init
  }

  /** Everything between the parentheses, without the separators: columns, key clause, indexes. */
  function Entries(d: Dialect, table: string, columns: seq<Column>): seq<string>
  {
    ColumnDefs(d, columns) +
    (if KeyNames(d, columns) == [] then [] else [KeyClause(QuoteAll(d, KeyNames(d, columns)))]) +
    (if d.MySQL? then IndexTexts(d, Indexes(table, columns)) else [])
  }

  function EngineText(d: Dialect): string {
    if d.MySQL? then " ENGINE=InnoDB DEFAULT CHARSET=utf8mb4" else ""
  }

  function HeadText(d: Dialect, table: string, ifNotExists: bool): string {
    "CREATE TABLE " + (if ifNotExists then "IF NOT EXISTS " else "") + Quote(d, table) + " "
  }

  function CreateTableText(d: Dialect, table: string, columns: seq<Column>, ifNotExists: bool): string {
    Table(HeadText(d, table, ifNotExists), Entries(d, table, columns), EngineText(d))
  }

  lemma {:induction false} ListsSnoc(d: Dialect, columns: seq<Column>, c: Column, names: seq<string>, name: string)
    ensures ColumnDefs(d, columns + [c]) == ColumnDefs(d, columns) + [ColumnDef(d, c)]
    ensures QuoteAll(d, names + [name]) == QuoteAll(d, names) + [Quote(d, name)]
  {
  }

  /** The first loop of buildCreateTable: column definitions, and the quoted key columns. */
  method CollectColumns(d: Dialect, columns: seq<Column>) returns (columnDefs: seq<string>, primaryKeys: seq<string>)
    ensures columnDefs == ColumnDefs(d, columns)
    ensures primaryKeys == QuoteAll(d, KeyNames(d, columns))
  {
    columnDefs, primaryKeys := [], [];
    for i := 0 to |columns|
      invariant columnDefs == ColumnDefs(d, columns[..i])
      invariant primaryKeys == QuoteAll(d, KeyNames(d, columns[..i]))
    {
      assert columns[..i + 1] == columns[..i] + [columns[i]];
      assert columns[..i + 1][..i] == columns[..i];
      ListsSnoc(d, columns[..i], columns[i], KeyNames(d, columns[..i]), columns[i].name);
      columnDefs := columnDefs + [ColumnDef(d, columns[i])];
      if columns[i].primaryKey && !IsInlineKey(d, columns[i]) {
        primaryKeys := primaryKeys + [Quote(d, columns[i].name)];
      }
    }
    assert columns[..|columns|] == columns;
  }

  /** buildCreateTable. */
  method BuildCreateTable(d: Dialect, table: string, columns: seq<Column>, ifNotExists: bool) returns (sql: string)
    ensures sql == CreateTableText(d, table, columns, ifNotExists)
  {
    var columnDefs, primaryKeys := CollectColumns(d, columns);
    var indexes := BuildInlineIndexes(d, table, columns);
    sql := WriteTable(HeadText(d, table, ifNotExists), columnDefs, primaryKeys, indexes, EngineText(d));
  }
}
