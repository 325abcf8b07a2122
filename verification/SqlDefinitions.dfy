/** What a printed CREATE TABLE statement says beside what the parser takes from it: defaults, comments and indexes. */
module SqlDefinitions {
  import opened Text
  import opened SqlScan
  import opened SqlLayout
  import opened SqlDdl
  import opened SqlNames
  import opened SqlTypes
  import opened SqlParse
  import opened SqlColumns
  import opened SqlEntries
  import opened SqlTableTrip
  import opened SqlRoundTrip

  // ---------------------------------------------------------------- one column

  /** The column without its default and its comment. */
  function Bare(c: Column): Column {
    c.(default := "", comment := "")
  }

  /** The texts, each with a space in front. */
  function Spaced(parts: seq<string>): string {
    if parts == [] then "" else " " + parts[0] + Spaced(parts[1..])
  }

  lemma {:induction false} SpacedConcat(a: seq<string>, b: seq<string>)
    ensures Spaced(a + b) == Spaced(a) + Spaced(b)
    decreases |a|
  {
    if a == [] {
      assert a + b == b && "" + Spaced(b) == Spaced(b);
    } else {
      assert (a + b)[1..] == a[1..] + b && (a + b)[0] == a[0];
      SpacedConcat(a[1..], b);
      Regroup(" " + a[0], Spaced(a[1..]), Spaced(b));
    }
  }

  lemma {:induction false} SpacedOne(w: string)
    ensures Spaced([w]) == " " + w && Spaced([]) == ""
  {
    assert [w][1..] == [] && " " + w + "" == " " + w;
  }

  lemma {:induction false} JoinIsSpaced(first: string, parts: seq<string>)
    ensures Join([first] + parts, " ") == first + Spaced(parts)
    decreases |parts|
  {
    if parts == [] {
      assert [first] + parts == [first] && first + "" == first;
    } else {
      assert ([first] + parts)[1..] == [parts[0]] + parts[1..];
      JoinIsSpaced(parts[0], parts[1..]);
      assert first + " " + (parts[0] + Spaced(parts[1..])) == first + (" " + parts[0] + Spaced(parts[1..]));
    }
  }

  function DefaultPart(c: Column): seq<string> {
    if c.default != "" then ["DEFAULT " + c.default] else []
  }

  function CommentPart(d: Dialect, c: Column): seq<string> {
    if c.comment != "" && d.MySQL? then ["COMMENT '" + Doubled(c.comment) + "'"] else []
  }

  lemma {:induction false} PartsSplit(d: Dialect, c: Column)
    ensures ColumnParts(d, c) ==
            ColumnParts(d, Bare(c)) + (if IsInlineKey(d, c) then [] else DefaultPart(c) + CommentPart(d, c))
  {
    EscapeIsDoubling(c.comment);
  }

  lemma {:induction false} SpacedDefault(c: Column)
    ensures Spaced(DefaultPart(c)) == if c.default != "" then " DEFAULT " + c.default else ""
  {
    SpacedOne("DEFAULT " + c.default);
    assert " " + ("DEFAULT " + c.default) == " DEFAULT " + c.default;
  }

  lemma {:induction false} SpacedComment(d: Dialect, c: Column)
    ensures Spaced(CommentPart(d, c)) ==
            if c.comment != "" && d.MySQL? then " COMMENT '" + Doubled(c.comment) + "'" else ""
  {
    SpacedOne("COMMENT '" + Doubled(c.comment) + "'");
    assert " " + ("COMMENT '" + Doubled(c.comment) + "'") == " COMMENT '" + Doubled(c.comment) + "'";
  }

  /** The definition of a column is its definition without default and comment, then the default as it stands, then,
      for MySQL, the comment as a literal in which every special character is doubled. An inline key of SQLite has
      neither. */
  lemma {:induction false} DefinitionSays(d: Dialect, c: Column)
    ensures ColumnDef(d, c) ==
            ColumnDef(d, c.(default := "", comment := "")) +
            if d.SQLite? && c.primaryKey && c.autoIncrement then ""
            else
              (if c.default != "" then " DEFAULT " + c.default else "") +
              (if c.comment != "" && d.MySQL? then " COMMENT '" + Doubled(c.comment) + "'" else "")
  {
    var q, parts := Quote(d, c.name), ColumnParts(d, Bare(c));
    var tail := if IsInlineKey(d, c) then [] else DefaultPart(c) + CommentPart(d, c);
    PartsSplit(d, c);
    JoinIsSpaced(q, parts);
    JoinIsSpaced(q, parts + tail);
    SpacedConcat(parts, tail);
    Regroup(q, Spaced(parts), Spaced(tail));
    SpacedConcat(DefaultPart(c), CommentPart(d, c));
    SpacedDefault(c);
    SpacedComment(d, c);
  }

  /** That literal: the scanner passes it from outside quotes to the same state, at every depth, and halving the text
      between its quotes gives the comment back, whatever the comment. */
  lemma {:induction false} CommentLiteral(comment: string, depth: int)
    ensures var literal := "'" + Doubled(comment) + "'";
            && Quiet(Scan(depth, Outside, false), literal)
            && Run(Scan(depth, Outside, false), literal) == Scan(depth, Outside, false)
            && Halved(literal[1..|literal| - 1]) == comment
  {
    var literal := "'" + Doubled(comment) + "'";
    assert literal[1..|literal| - 1] == Doubled(comment);
    HalvedDoubled(comment);
    EscapeIsDoubling(comment);
    LiteralIsTransparent(comment, depth);
  }

  function NotNullPart(c: Column): seq<string> {
    if c.notNull || c.primaryKey then ["NOT NULL"] else []
  }

  function AutoPart(d: Dialect, c: Column): seq<string> {
    if c.autoIncrement && AutoIncrementKeyword(d) != "" then [AutoIncrementKeyword(d)] else []
  }

  lemma {:induction false} SpacedFlags(d: Dialect, c: Column)
    ensures Spaced(NotNullPart(c)) == if c.notNull || c.primaryKey then " NOT NULL" else ""
    ensures Spaced(AutoPart(d, c)) ==
            if !c.autoIncrement then ""
            else match d
              case MySQL => " AUTO_INCREMENT"
              case PostgreSQL => ""
              case SQLite => " AUTOINCREMENT"
              case SQLServer => " IDENTITY(1,1)"
  {
    SpacedOne("NOT NULL");
    SpacedOne(AutoIncrementKeyword(d));
  }

  lemma {:induction false} SpacedInline()
    ensures Spaced(["PRIMARY KEY", "AUTOINCREMENT"]) == " PRIMARY KEY AUTOINCREMENT"
  {
    assert ["PRIMARY KEY", "AUTOINCREMENT"][1..] == ["AUTOINCREMENT"];
    SpacedOne("AUTOINCREMENT");
  }

  /** A definition in full, for a column without default and comment: quoted name, type, and the words for what its
      flags ask for, in every dialect. */
  lemma {:induction false} BareDefinition(d: Dialect, c: Column)
    requires c.default == "" && c.comment == ""
    ensures ColumnDef(d, c) ==
            Quote(d, c.name) +
            (" " + c.sqlType +
             if d.SQLite? && c.primaryKey && c.autoIncrement then " PRIMARY KEY AUTOINCREMENT"
             else
               (if c.notNull || c.primaryKey then " NOT NULL" else "") +
               (if !c.autoIncrement then ""
                else match d
                  case MySQL => " AUTO_INCREMENT"
                  case PostgreSQL => ""
                  case SQLite => " AUTOINCREMENT"
                  case SQLServer => " IDENTITY(1,1)"))
  {
    var flags := if IsInlineKey(d, c) then ["PRIMARY KEY", "AUTOINCREMENT"] else NotNullPart(c) + AutoPart(d, c);
    BareParts(d, c, flags);
    JoinIsSpaced(Quote(d, c.name), [c.sqlType] + flags);
    SpacedConcat([c.sqlType], flags);
    SpacedOne(c.sqlType);
    SpacedConcat(NotNullPart(c), AutoPart(d, c));
    SpacedFlags(d, c);
    SpacedInline();
  }

  lemma {:induction false} BareParts(d: Dialect, c: Column, flags: seq<string>)
    requires c.default == "" && c.comment == ""
    requires flags == if IsInlineKey(d, c) then ["PRIMARY KEY", "AUTOINCREMENT"] else NotNullPart(c) + AutoPart(d, c)
    ensures ColumnParts(d, c) == [c.sqlType] + flags
  {
    assert flags + [] + [] == flags;
  }

  // ---------------------------------------------------------------- the statement

  lemma {:induction false} FrameGrouping(head: string, body: string, engine: string)
    ensures (head + " ") + "(" + body + ")" + engine + ";" == head + " (" + body + (")" + engine + ";")
  {
  }

  /** The frame of a statement: the opening words, the entries between parentheses, and the engine for MySQL. */
  lemma {:induction false} StatementFrame(d: Dialect, table: string, columns: seq<Column>, ifNotExists: bool)
    ensures CreateTableText(d, table, columns, ifNotExists) ==
            "CREATE TABLE " + (if ifNotExists then "IF NOT EXISTS " else "") + Quote(d, table) + " (" +
            Body(Entries(d, table, columns)) +
            (")" + (if d.MySQL? then " ENGINE=InnoDB DEFAULT CHARSET=utf8mb4" else "") + ";")
  {
    FrameGrouping("CREATE TABLE " + (if ifNotExists then "IF NOT EXISTS " else "") + Quote(d, table),
                  Body(Entries(d, table, columns)), EngineText(d));
  }

  function Uncommented(columns: seq<Column>): (r: seq<Column>)
    ensures |r| == |columns| && forall i :: 0 <= i < |columns| ==> r[i] == columns[i].(comment := "")
  {
    seq(|columns|, i requires 0 <= i < |columns| => columns[i].(comment := ""))
  }

  lemma {:induction false} SameKeysAndIndexes(d: Dialect, table: string, columns: seq<Column>)
    ensures KeyNames(d, Uncommented(columns)) == KeyNames(d, columns)
    ensures Indexes(table, Uncommented(columns)) == Indexes(table, columns)
  {
    if columns != [] {
      var init := columns[..|columns| - 1];
      SameKeysAndIndexes(d, table, init);
      assert Uncommented(columns)[..|columns| - 1] == Uncommented(init);
    }
  }

  lemma {:induction false} CalmWithComment(def: string, comment: string, text: string)
    requires Calm(1, def) && text == def + ("" + (" COMMENT '" + Doubled(comment) + "'"))
    ensures Calm(1, text)
  {
    var word, literal := " COMMENT ", "'" + Doubled(comment) + "'";
    SoundPlain(0, word);
    CommentLiteral(comment, 1);
    CalmConcat(1, def, word);
    CalmConcat(1, def + word, literal);
    assert " COMMENT '" + Doubled(comment) + "'" == word + literal;
    assert "" + (word + literal) == word + literal;
    Regroup(def, word, literal);
  }

  lemma {:induction false} CommentedIsCalm(c: Column, ty: GoType, size: int)
    requires Fit(MySQL, c.(comment := ""), ty, size)
    ensures Calm(1, ColumnDef(MySQL, c))
  {
    var def := ColumnDef(MySQL, Bare(c));
    assert c.(comment := "") == Bare(c);
    SoundColumn(MySQL, Bare(c), ty, size);
    DefinitionSays(MySQL, c);
    if c.comment == "" {
      assert def + ("" + "") == def;
    } else {
      CalmWithComment(def, c.comment, ColumnDef(MySQL, c));
    }
  }

  /** What follows the column definitions: key clause and indexes. */
  function AfterColumns(d: Dialect, table: string, columns: seq<Column>): seq<string> {
    (if KeyNames(d, columns) == [] then [] else [KeyClause(QuoteAll(d, KeyNames(d, columns)))]) +
    (if d.MySQL? then IndexTexts(d, Indexes(table, columns)) else [])
  }

  lemma {:induction false} EntriesSplit(d: Dialect, table: string, columns: seq<Column>)
    ensures Entries(d, table, columns) == ColumnDefs(d, columns) + AfterColumns(d, table, columns)
  {
  }

  lemma {:induction false} SameAfterColumns(d: Dialect, table: string, columns: seq<Column>)
    ensures AfterColumns(d, table, Uncommented(columns)) == AfterColumns(d, table, columns)
  {
    SameKeysAndIndexes(d, table, columns);
  }

  lemma {:induction false} CalmParts(a: seq<string>, b: seq<string>)
    ensures AllCalm(a + b) <==> AllCalm(a) && AllCalm(b)
  {
    if AllCalm(a + b) {
      forall i | 0 <= i < |a| ensures Calm(1, a[i]) {
        assert (a + b)[i] == a[i];
      }
      forall i | 0 <= i < |b| ensures Calm(1, b[i]) {
        assert (a + b)[|a| + i] == b[i];
      }
    }
  }

  lemma {:induction false} DefinitionsAreCalm(columns: seq<Column>, types: seq<Typing>)
    requires AllFit(MySQL, Uncommented(columns), types)
    ensures AllCalm(ColumnDefs(MySQL, columns))
  {
    var bare, defs := Uncommented(columns), ColumnDefs(MySQL, columns);
    forall i | 0 <= i < |defs| ensures Calm(1, defs[i]) {
      assert Fit(MySQL, bare[i], types[i].goType, types[i].size);
      CommentedIsCalm(columns[i], types[i].goType, types[i].size);
    }
  }

  lemma {:induction false} EntriesAreCalm(table: string, columns: seq<Column>, types: seq<Typing>)
    requires AllFit(MySQL, Uncommented(columns), types) && IsWord(table)
    ensures AllCalm(Entries(MySQL, table, columns))
  {
    var bare := Uncommented(columns);
    EntriesTaken(MySQL, table, bare, types);
    SoundIsCalm(Entries(MySQL, table, bare));
    EntriesSplit(MySQL, table, bare);
    EntriesSplit(MySQL, table, columns);
    SameAfterColumns(MySQL, table, columns);
    DefinitionsAreCalm(columns, types);
    CalmParts(ColumnDefs(MySQL, bare), AfterColumns(MySQL, table, bare));
    CalmParts(ColumnDefs(MySQL, columns), AfterColumns(MySQL, table, columns));
  }

  lemma {:induction false} MatchedAt(head: string, rest: string, k: nat)
    requires rest != "" && rest[0] == '(' && Stop(START, rest) == Some(k) && k > 0
    ensures MatchingParen(head + rest, |head|) == |head| + k
    ensures (head + rest)[|head|] == '(' && (head + rest)[|head| + 1..|head| + k] == rest[1..k]
  {
    assert (head + rest)[|head|..] == rest;
  }

  /** At a place of the text a parenthesis opens, a given body follows, and the parenthesis behind it is the one that
      the scanner finds. */
  predicate Encloses(sql: string, open: nat, body: string) {
    var close := open + 1 + |body|;
    && close < |sql| && sql[open] == '(' && sql[open + 1..close] == body
    && MatchingParen(sql, open) == close
  }

  lemma {:induction false} CalmIsMatched(head: string, entries: seq<string>, engine: string, sql: string)
    requires AllCalm(entries) && sql == Table(head, entries, engine)
    ensures Encloses(sql, |head|, Body(entries))
  {
    var rest := FromParen(entries, engine);
    TableIs(head, entries, engine);
    StopIs(entries, engine, "");
    assert rest + "" == rest;
    MatchedAt(head, rest, 1 + |Body(entries)|);
  }

  /** With comments of whatever text on any of its columns, the parenthesis that opens a printed MySQL table is matched
      with the one that closes it. */
  lemma {:induction false} CommentsKeepParenthesis(table: string, columns: seq<Column>, types: seq<Typing>,
                                                   ifNotExists: bool)
    requires AllFit(MySQL, Uncommented(columns), types) && IsWord(table)
    ensures Encloses(CreateTableText(MySQL, table, columns, ifNotExists), |HeadText(MySQL, table, ifNotExists)|,
                     Body(Entries(MySQL, table, columns)))
  {
    EntriesAreCalm(table, columns, types);
    CalmIsMatched(HeadText(MySQL, table, ifNotExists), Entries(MySQL, table, columns), EngineText(MySQL),
                  CreateTableText(MySQL, table, columns, ifNotExists));
  }

  // ---------------------------------------------------------------- indexes

  /** What an index entry says: whether it is unique, its name, and its columns. */
  function ReadIndex(d: Dialect, text: string): Option<(bool, string, seq<string>)> {
    var unique := "UNIQUE INDEX " <= text;
    if !unique && !("INDEX " <= text) then None
    else
      match ReadQuoted(d, text[if unique then 13 else 6..])
      case None => None
      case Some((name, rest)) =>
        match Behind(" (", rest)
        case None => None
        case Some(list) =>
          match ReadNames(d, list)
          case None => None
          case Some(columns) => Some((unique, name, columns))
  }

  lemma {:induction false} IndexKindRead(d: Dialect, unique: bool, kind: string, name: string, columns: seq<string>,
                                         list: string, text: string)
    requires kind == (if unique then "UNIQUE INDEX " else "INDEX ") && text == kind + (Quote(d, name) + (" (" + list))
    requires IsQuotable(d, name) && ReadNames(d, list) == Some(columns)
    ensures ReadIndex(d, text) == Some((unique, name, columns))
  {
    assert text[0] == kind[0];
    assert text[|kind|..] == Quote(d, name) + (" (" + list);
    NameReads(d, name, " (" + list);
    assert (" (" + list)[2..] == list;
  }

  /** The text of an index entry says what the index is. */
  lemma {:induction false} IndexReadsBack(d: Dialect, spec: IndexSpec)
    requires IsQuotable(d, spec.name) && forall i :: 0 <= i < |spec.columns| ==> IsQuotable(d, spec.columns[i])
    ensures ReadIndex(d, IndexText(d, spec)) == Some((spec.unique, spec.name, spec.columns))
  {
    var kind := if spec.unique then "UNIQUE INDEX " else "INDEX ";
    var list := Join(QuoteAll(d, spec.columns), ", ") + ")";
    NamesRead(d, spec.columns);
    IndexGrouping(if spec.unique then "UNIQUE INDEX" else "INDEX", Quote(d, spec.name),
                  Join(QuoteAll(d, spec.columns), ", "));
    assert (if spec.unique then "UNIQUE INDEX" else "INDEX") + " " == kind;
    IndexKindRead(d, spec.unique, kind, spec.name, spec.columns, list, IndexText(d, spec));
  }

  lemma {:induction false} IndexGrouping(kind: string, name: string, list: string)
    ensures kind + " " + name + " (" + list + ")" == (kind + " ") + (name + (" (" + (list + ")")))
  {
  }

  /** The index that a tag asks for: the name in the tag, or one made up of table and column for a bare "true". */
  function AskedName(tag: string, unique: bool, table: string, column: string): string {
    if tag != "true" then tag
    else if unique then "uk_" + table + "_" + column
    else "idx_" + table + "_" + column
  }

  predicate AsksFor(c: Column, table: string, name: string, unique: bool) {
    var tag := if unique then c.uniqueIndex else c.index;
    tag != "" && AskedName(tag, unique, table, c.name) == name
  }

  /** The columns that ask for an index, in order. */
  function Asking(columns: seq<Column>, table: string, name: string, unique: bool): seq<string> {
    if columns == [] then []
    else
      (if AsksFor(columns[0], table, name, unique) then [columns[0].name] else []) +
      Asking(columns[1..], table, name, unique)
  }

  lemma {:induction false} AskingSnoc(columns: seq<Column>, c: Column, table: string, name: string, unique: bool)
    ensures Asking(columns + [c], table, name, unique) ==
            Asking(columns, table, name, unique) + if AsksFor(c, table, name, unique) then [c.name] else []
  {
    if columns == [] {
      assert columns + [c] == [c] && [c][1..] == [];
    } else {
      assert (columns + [c])[1..] == columns[1..] + [c];
      AskingSnoc(columns[1..], c, table, name, unique);
    }
  }

  /** The columns that a list of specs gives an index, none if it has no such index. */
  function ColumnsFor(specs: seq<IndexSpec>, name: string, unique: bool): seq<string> {
    if specs == [] then []
    else if IsFor(specs[0], name, unique) then specs[0].columns
    else ColumnsFor(specs[1..], name, unique)
  }

  /** No index is there twice, and none without columns. */
  predicate NoneTwice(specs: seq<IndexSpec>) {
    && (forall i, j :: 0 <= i < j < |specs| ==> !IsFor(specs[j], specs[i].name, specs[i].unique))
    && forall i :: 0 <= i < |specs| ==> specs[i].columns != []
  }

  lemma {:induction false} AddedColumn(specs: seq<IndexSpec>, name: string, unique: bool, column: string)
    requires NoneTwice(specs)
    ensures NoneTwice(AddColumn(specs, name, unique, column))
    ensures forall n, u :: ColumnsFor(AddColumn(specs, name, unique, column), n, u) ==
                           ColumnsFor(specs, n, u) + if n == name && u == unique then [column] else []
  {
    if k: nat :| k < |specs| && IsFor(specs[k], name, unique) {
      JoinsAt(specs, name, unique, column, k);
    } else {
      AddColumnLast(specs, name, unique, column);
      forall n, u
        ensures ColumnsFor(specs + [IndexSpec(name, unique, [column])], n, u) ==
                ColumnsFor(specs, n, u) + if n == name && u == unique then [column] else []
      {
        ColumnsForSnoc(specs, name, unique, column, n, u);
      }
    }
  }

  lemma {:induction false} ColumnsForSnoc(specs: seq<IndexSpec>, name: string, unique: bool, column: string, n: string,
                                          u: bool)
    requires forall i :: 0 <= i < |specs| ==> !IsFor(specs[i], name, unique)
    ensures ColumnsFor(specs + [IndexSpec(name, unique, [column])], n, u) ==
            ColumnsFor(specs, n, u) + if n == name && u == unique then [column] else []
  {
    var more := specs + [IndexSpec(name, unique, [column])];
    if specs == [] {
      assert more[1..] == [];
    } else {
      assert !IsFor(specs[0], name, unique);
      assert more[1..] == specs[1..] + [IndexSpec(name, unique, [column])];
      ColumnsForSnoc(specs[1..], name, unique, column, n, u);
    }
  }

  lemma {:induction false} JoinsAt(specs: seq<IndexSpec>, name: string, unique: bool, column: string, k: nat)
    requires NoneTwice(specs) && k < |specs| && IsFor(specs[k], name, unique)
    ensures NoneTwice(AddColumn(specs, name, unique, column))
    ensures forall n, u :: ColumnsFor(AddColumn(specs, name, unique, column), n, u) ==
                           ColumnsFor(specs, n, u) + if n == name && u == unique then [column] else []
  {
    AddColumnAt(specs, name, unique, column, k);
    forall n, u
      ensures ColumnsFor(AddColumn(specs, name, unique, column), n, u) ==
              ColumnsFor(specs, n, u) + if n == name && u == unique then [column] else []
    {
      ColumnsForAt(specs, name, unique, column, k, n, u);
    }
  }

  lemma {:induction false} ColumnsForAt(specs: seq<IndexSpec>, name: string, unique: bool, column: string, k: nat,
                                        n: string, u: bool)
    requires k < |specs| && IsFor(specs[k], name, unique)
    requires forall i :: 0 <= i < k ==> !IsFor(specs[i], name, unique)
    ensures ColumnsFor(specs[k := specs[k].(columns := specs[k].columns + [column])], n, u) ==
            ColumnsFor(specs, n, u) + if n == name && u == unique then [column] else []
  {
    var more := specs[k := specs[k].(columns := specs[k].columns + [column])];
    if k > 0 {
      assert !IsFor(specs[0], name, unique);
      assert more[1..] == specs[1..][k - 1 := specs[k].(columns := specs[k].columns + [column])];
      ColumnsForAt(specs[1..], name, unique, column, k - 1, n, u);
    } else {
      assert more[1..] == specs[1..];
    }
  }

  lemma {:induction false} TagIsClean(specs: seq<IndexSpec>, tag: string, unique: bool, table: string, column: string)
    requires NoneTwice(specs)
    ensures NoneTwice(AddTag(specs, tag, unique, table, column))
  {
    if tag != "" {
      StaysClean(specs, IndexName(tag, unique, table, column), unique, column);
    }
  }

  lemma {:induction false} StaysClean(specs: seq<IndexSpec>, name: string, unique: bool, column: string)
    requires NoneTwice(specs)
    ensures NoneTwice(AddColumn(specs, name, unique, column))
  {
    AddedColumn(specs, name, unique, column);
  }

  lemma {:induction false} NameIsAsked(tag: string, unique: bool, table: string, column: string)
    ensures IndexName(tag, unique, table, column) == AskedName(tag, unique, table, column)
  {
    assert unique ==> "uk" + "_" + table == "uk_" + table;
    assert !unique ==> "idx" + "_" + table == "idx_" + table;
  }

  lemma {:induction false} AddedTag(specs: seq<IndexSpec>, tag: string, unique: bool, table: string, column: string,
                                    n: string, u: bool)
    requires NoneTwice(specs)
    ensures ColumnsFor(AddTag(specs, tag, unique, table, column), n, u) ==
            ColumnsFor(specs, n, u) +
              if tag != "" && u == unique && AskedName(tag, unique, table, column) == n then [column] else []
  {
    if tag == "" {
      assert ColumnsFor(specs, n, u) + [] == ColumnsFor(specs, n, u);
    } else {
      var name := AskedName(tag, unique, table, column);
      NameIsAsked(tag, unique, table, column);
      AddedColumn(specs, name, unique, column);
    }
  }

  lemma {:induction false} TwoTags(before: seq<IndexSpec>, c: Column, table: string, n: string, u: bool)
    requires NoneTwice(before)
    ensures var after := AddTag(AddTag(before, c.index, false, table, c.name), c.uniqueIndex, true, table, c.name);
            && NoneTwice(after)
            && ColumnsFor(after, n, u) == ColumnsFor(before, n, u) + if AsksFor(c, table, n, u) then [c.name] else []
  {
    var middle := AddTag(before, c.index, false, table, c.name);
    TagIsClean(before, c.index, false, table, c.name);
    TagIsClean(middle, c.uniqueIndex, true, table, c.name);
    AddedTag(before, c.index, false, table, c.name, n, u);
    AddedTag(middle, c.uniqueIndex, true, table, c.name, n, u);
    assert ColumnsFor(middle, n, u) + [] == ColumnsFor(middle, n, u);
    assert ColumnsFor(before, n, u) + [] == ColumnsFor(before, n, u);
  }

  /** Every index that some tag asks for is there once, with exactly the columns that ask for it, in order. */
  lemma {:induction false} IndexesExactly(table: string, columns: seq<Column>)
    ensures NoneTwice(Indexes(table, columns))
    ensures forall name, unique :: ColumnsFor(Indexes(table, columns), name, unique) ==
                                   Asking(columns, table, name, unique)
  {
    if columns != [] {
      var init, c := columns[..|columns| - 1], columns[|columns| - 1];
      IndexesExactly(table, init);
      TwoTags(Indexes(table, init), c, table, "", false);
      forall name, unique
        ensures ColumnsFor(Indexes(table, columns), name, unique) == Asking(columns, table, name, unique)
      {
        TwoTags(Indexes(table, init), c, table, name, unique);
        assert columns == init + [c];
        AskingSnoc(init, c, table, name, unique);
      }
    }
  }
}
