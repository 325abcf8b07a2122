/** The round trip of a table: printing it and parsing the text. */
module SqlRoundTrip {
  import opened Text
  import opened Folds
  import opened SqlScan
  import opened SqlLayout
  import opened SqlDdl
  import opened SqlTypes
  import opened SqlParse
  import opened SqlColumns
  import opened SqlModifiers
  import opened SqlColumnTrip
  import opened SqlEntries
  import opened SqlTableTrip

  /** The Go type and size that a column's type text was made from. */
  datatype Typing = Typing(goType: GoType, size: int)

  // ---------------------------------------------------------------- column entries

  predicate EndsWell(s: string) {
    s == "" || !IsSpace(s[|s| - 1])
  }

  lemma {:induction false} EndsWellConcats(w: string, u: string, k: string, n: string, t: string)
    requires EndsWell(w) && EndsWell(u) && EndsWell(k) && EndsWell(n) && EndsWell(t)
    ensures EndsWell(w + (u + k + n + t))
  {
  }

  lemma {:induction false} TailEndsWell(d: Dialect, m: Mods, w: string)
    requires (d.MySQL? || d.SQLite?) && EndsWell(w)
    ensures EndsWell(w + Tail(d, m))
  {
    var u, k, n, t := UnsignedText(m.unsigned), KeyText(m.key), NotNullText(m.notNull), AutoText(d, m.auto);
    EndsWellConcats(w, u, k, n, t);
  }

  lemma {:induction false} FirstWordEndsWell(s: Shape)
    requires IsBase(s.base)
    ensures FirstWord(s) != "" && EndsWell(FirstWord(s))
  {
    TypeWordChars(s);
  }

  lemma {:induction false} ColumnIsNeat(d: Dialect, c: Column, ty: GoType, size: int)
    requires (d.MySQL? || d.SQLite?) && Fit(d, c, ty, size)
    ensures Neat(ColumnDef(d, c)) && ColumnDef(d, c)[0] == Quote(d, c.name)[0]
  {
    var s := ShapeOf(d, ty, size);
    var m := ModsOf(d, s.unsigned, c);
    TypeTextIsShape(d, ty, size);
    BasesAreFit(d, ty, size);
    DefIs(d, c, s);
    FirstWordEndsWell(s);
    TailEndsWell(d, m, FirstWord(s));
    QuoteIsField(d, c.name);
    QuotedIsNeat(Quote(d, c.name), FirstWord(s) + Tail(d, m));
  }

  lemma {:induction false} QuotedIsNeat(q: string, r: string)
    requires IsField(q) && r != "" && EndsWell(r)
    ensures Neat(q + " " + r) && (q + " " + r)[0] == q[0]
  {
  }

  /** A quoted name starts no constraint. */
  lemma {:induction false} NoConstraint(entry: string)
    requires entry != "" && (entry[0] == '`' || entry[0] == '"')
    ensures !IsKeyEntry(entry) && !IsOtherConstraint(entry)
  {
    var upper := Upper(entry);
    assert upper[0] == entry[0];
    PrefixStart(upper, "PRIMARY KEY");
    PrefixStart(upper, "CONSTRAINT");
    PrefixStart(upper, "INDEX");
    PrefixStart(upper, "KEY");
    PrefixStart(upper, "UNIQUE");
    PrefixStart(upper, "FOREIGN");
    PrefixStart(upper, "CHECK");
  }

  lemma {:induction false} PrefixStart(s: string, p: string)
    requires s != "" && p != ""
    ensures HasPrefix(s, p) ==> s[0] == p[0]
  {
  }

  lemma {:induction false} TakeColumn(d: Dialect, so: Taken, c: Column, ty: GoType, size: int)
    requires (d.MySQL? || d.SQLite?) && Fit(d, c, ty, size)
    ensures TakeEntry(d, so, ColumnDef(d, c)) == Taken(so.columns + [Recovered(d, c, ty, size)], so.keys)
  {
    ColumnIsNeat(d, c, ty, size);
    TrimFixed(ColumnDef(d, c));
    NoConstraint(ColumnDef(d, c));
    ColumnRoundTrip(d, c, ty, size);
  }

  predicate AllFit(d: Dialect, columns: seq<Column>, types: seq<Typing>) {
    && (d.MySQL? || d.SQLite?)
    && |types| == |columns|
    && forall i :: 0 <= i < |columns| ==> Fit(d, columns[i], types[i].goType, types[i].size)
  }

  function RecoveredAll(d: Dialect, columns: seq<Column>, types: seq<Typing>): (r: seq<ParsedColumn>)
    requires AllFit(d, columns, types)
    ensures |r| == |columns|
    ensures forall i :: 0 <= i < |columns| ==> r[i] == Recovered(d, columns[i], types[i].goType, types[i].size)
  {
    seq(|columns|, i requires 0 <= i < |columns| => Recovered(d, columns[i], types[i].goType, types[i].size))
  }

  function TakenUpTo(d: Dialect, columns: seq<Column>, types: seq<Typing>, n: nat): Taken
    requires AllFit(d, columns, types) && n <= |columns|
  {
    Taken(RecoveredAll(d, columns, types)[..n], [])
  }

  lemma {:induction false} TakerColumn(d: Dialect, so: Taken, c: Column, ty: GoType, size: int, r: ParsedColumn)
    requires (d.MySQL? || d.SQLite?) && Fit(d, c, ty, size) && r == Recovered(d, c, ty, size)
    ensures Taker(d)(so, ColumnDef(d, c)) == Taken(so.columns + [r], so.keys)
  {
    TakeColumn(d, so, c, ty, size);
  }

  lemma {:induction false} Snoc<T>(s: seq<T>, n: nat)
    requires n < |s|
    ensures s[..n + 1] == s[..n] + [s[n]]
  {
  }

  lemma {:induction false} TakeColumnNext(d: Dialect, columns: seq<Column>, types: seq<Typing>, n: nat)
    requires AllFit(d, columns, types) && n < |columns|
    ensures Taker(d)(TakenUpTo(d, columns, types, n), ColumnDef(d, columns[n])) == TakenUpTo(d, columns, types, n + 1)
  {
    var all := RecoveredAll(d, columns, types);
    var c, t := columns[n], types[n];
    assert Fit(d, c, t.goType, t.size);
    Snoc(all, n);
    TakerColumn(d, TakenUpTo(d, columns, types, n), c, t.goType, t.size, all[n]);
  }

  function TakenStates(d: Dialect, columns: seq<Column>, types: seq<Typing>): (r: seq<Taken>)
    requires AllFit(d, columns, types)
    ensures |r| == |columns| + 1 && forall i :: 0 <= i <= |columns| ==> r[i] == TakenUpTo(d, columns, types, i)
  {
    seq(|columns| + 1, i requires 0 <= i <= |columns| => TakenUpTo(d, columns, types, i))
  }

  lemma {:induction false} TakeColumns(d: Dialect, columns: seq<Column>, types: seq<Typing>)
    requires AllFit(d, columns, types)
    ensures TakeEntries(d, ColumnDefs(d, columns)) == Taken(RecoveredAll(d, columns, types), [])
  {
    var defs, states := ColumnDefs(d, columns), TakenStates(d, columns, types);
    forall i | 0 <= i < |columns| ensures Taker(d)(states[i], defs[i]) == states[i + 1] {
      TakeColumnNext(d, columns, types, i);
    }
    FoldStates(Taker(d), defs, states);
    assert RecoveredAll(d, columns, types)[..|columns|] == RecoveredAll(d, columns, types);
  }

  // ---------------------------------------------------------------- the key clause

  lemma {:induction false} UpperConcats(a: string, b: string)
    ensures Upper(a + b) == Upper(a) + Upper(b)
  {
  }

  lemma {:induction false} KeyPrefix(more: string)
    ensures IsKeyEntry("PRIMARY KEY " + more)
  {
    UpperConcats("PRIMARY KEY ", more);
    assert Upper("PRIMARY KEY ") == "PRIMARY KEY ";
    assert "PRIMARY KEY " + Upper(more) == "PRIMARY KEY" + (" " + Upper(more));
  }

  lemma {:induction false} FoundKey(list: string)
    requires list != "" && ')' !in list
    ensures FindKey("PRIMARY KEY " + ("(" + list + ")")) == Some(list)
  {
    var v := "(" + list + ")";
    var t := "KEY" + (" " + v);
    KeyWordsAre(v);
    EatPrimaryKey(v);
    EatSpace(v);
    KeyListRead(list);
    KeySteps("PRIMARY" + " " + t, t, " " + v, v, list);
  }

  lemma {:induction false} KeyWordsAre(v: string)
    ensures "PRIMARY KEY " + v == "PRIMARY" + " " + ("KEY" + (" " + v))
  {
    assert "PRIMARY KEY " == "PRIMARY" + " " + "KEY" + " ";
    Regrouped("PRIMARY", "KEY", v);
  }

  lemma {:induction false} EatPrimaryKey(v: string)
    ensures EatKeyword("PRIMARY", "PRIMARY" + " " + ("KEY" + (" " + v))) == Some("KEY" + (" " + v))
    ensures Eat("KEY", "KEY" + (" " + v)) == Some(" " + v)
  {
    EatWordAndSpace("PRIMARY", "KEY" + (" " + v));
    EatWord("KEY", " " + v);
  }

  lemma {:induction false} Regrouped(p: string, k: string, v: string)
    ensures (p + " " + k + " ") + v == p + " " + (k + (" " + v))
  {
  }

  lemma {:induction false} KeyListRead(list: string)
    requires list != "" && ')' !in list
    ensures var inner := ("(" + list + ")")[1..];
            IndexOf(inner, ')') == |list| && |list| < |inner| && inner[..|list|] == list
  {
    assert ("(" + list + ")")[1..] == list + [')'] + "";
    IndexOfAfter(list, ')', "");
  }

  lemma {:induction false} KeySteps(s: string, t: string, u: string, v: string, list: string)
    requires EatKeyword("PRIMARY", s) == Some(t) && Eat("KEY", t) == Some(u) && EatBlanks(u) == v
    requires v != "" && v[0] == '(' && list != ""
    requires IndexOf(v[1..], ')') == |list| && |list| < |v[1..]| && v[1..][..|list|] == list
    ensures FindKey(s) == Some(list)
  {
    assert MatchKey(s) == Some(list);
  }

  /** The texts between the commas of a list that is joined with a comma and a space. */
  function Separated(quoted: seq<string>): (r: seq<string>)
    ensures |r| == |quoted| && forall i :: 0 <= i < |quoted| ==> r[i] == (if i == 0 then "" else " ") + quoted[i]
  {
    seq(|quoted|, i requires 0 <= i < |quoted| => (if i == 0 then "" else " ") + quoted[i])
  }

  function Led(quoted: seq<string>): (r: seq<string>)
    ensures |r| == |quoted| && forall i :: 0 <= i < |quoted| ==> r[i] == " " + quoted[i]
  {
    seq(|quoted|, i requires 0 <= i < |quoted| => " " + quoted[i])
  }

  lemma {:induction false} JoinLed(quoted: seq<string>)
    requires quoted != []
    ensures Join(Led(quoted), ",") == " " + Join(quoted, ", ")
  {
    if |quoted| > 1 {
      JoinLed(quoted[1..]);
      assert Led(quoted)[1..] == Led(quoted[1..]);
      var rest := Join(quoted[1..], ", ");
      LedGrouping(quoted[0], rest);
    }
  }

  lemma {:induction false} LedGrouping(head: string, rest: string)
    ensures " " + head + "," + (" " + rest) == " " + (head + ", " + rest)
  {
    assert ", " == "," + " ";
  }

  lemma {:induction false} JoinSpaced(quoted: seq<string>)
    requires quoted != []
    ensures Join(quoted, ", ") == Join(Separated(quoted), ",")
  {
    assert Separated(quoted)[0] == quoted[0];
    if |quoted| > 1 {
      JoinLed(quoted[1..]);
      assert Separated(quoted)[1..] == Led(quoted[1..]);
      SpacedGrouping(quoted[0], Join(quoted[1..], ", "));
    }
  }

  lemma {:induction false} SpacedGrouping(head: string, rest: string)
    ensures head + ", " + rest == head + "," + (" " + rest)
  {
    assert ", " == "," + " ";
  }

  lemma {:induction false} QuoteChars(d: Dialect, name: string)
    requires IsWord(name) && (d.MySQL? || d.SQLite?)
    ensures ',' !in Quote(d, name) && ')' !in Quote(d, name) && Neat(Quote(d, name))
  {
  }

  lemma {:induction false} NamesSplit(d: Dialect, names: seq<string>)
    requires names != [] && Words(names) && (d.MySQL? || d.SQLite?)
    ensures TrimNames(Split(Join(QuoteAll(d, names), ", "), ',')) == names
  {
    var quoted := QuoteAll(d, names);
    var spaced := Separated(quoted);
    JoinSpaced(quoted);
    forall i | 0 <= i < |names| ensures ',' !in spaced[i] && TrimMarks(TrimSpace(spaced[i])) == names[i] {
      SpacedName(d, names[i], if i == 0 then "" else " ");
    }
    SplitJoin(spaced, ',');
  }

  lemma {:induction false} SpacedName(d: Dialect, name: string, pre: string)
    requires IsWord(name) && (d.MySQL? || d.SQLite?) && (pre == "" || pre == " ")
    ensures ',' !in pre + Quote(d, name) && TrimMarks(TrimSpace(pre + Quote(d, name))) == name
  {
    QuoteChars(d, name);
    TrimPadded(pre, Quote(d, name), "");
    assert pre + Quote(d, name) + "" == pre + Quote(d, name);
    TrimMarksQuoted(d, name);
  }

  lemma {:induction false} ListChars(d: Dialect, names: seq<string>)
    requires names != [] && Words(names) && (d.MySQL? || d.SQLite?)
    ensures var list := Join(QuoteAll(d, names), ", "); list != "" && ')' !in list
  {
    forall p | p in QuoteAll(d, names) ensures ')' !in p {
      var i :| 0 <= i < |names| && p == QuoteAll(d, names)[i];
      QuoteChars(d, names[i]);
    }
    JoinChars(QuoteAll(d, names), ", ", ')');
    assert QuoteAll(d, names)[0] == Quote(d, names[0]) != "";
  }

  lemma {:induction false} KeyIsNeat(list: string)
    ensures Neat("PRIMARY KEY " + ("(" + list + ")"))
  {
  }

  lemma {:induction false} TakeKey(d: Dialect, so: Taken, names: seq<string>)
    requires names != [] && Words(names) && (d.MySQL? || d.SQLite?)
    ensures TakeEntry(d, so, KeyClause(QuoteAll(d, names))) == Taken(so.columns, so.keys + names)
    ensures Neat(KeyClause(QuoteAll(d, names)))
  {
    var list := Join(QuoteAll(d, names), ", ");
    KeyClauseIs(QuoteAll(d, names));
    KeyIsNeat(list);
    TrimFixed(KeyClause(QuoteAll(d, names)));
    KeyPrefix("(" + list + ")");
    ListChars(d, names);
    FoundKey(list);
    NamesSplit(d, names);
  }

  // ---------------------------------------------------------------- indexes

  predicate SpecsFit(specs: seq<IndexSpec>) {
    forall i :: 0 <= i < |specs| ==> SpecFit(specs[i])
  }

  lemma {:induction false} AddColumnFit(specs: seq<IndexSpec>, name: string, unique: bool, column: string)
    requires SpecsFit(specs) && IsWord(name) && IsWord(column)
    ensures SpecsFit(AddColumn(specs, name, unique, column))
  {
    if specs != [] {
      assert SpecFit(specs[0]);
      if !(specs[0].name == name && specs[0].unique == unique) {
        AddColumnFit(specs[1..], name, unique, column);
      }
    }
  }

  lemma {:induction false} IndexNameIsWord(raw: string, unique: bool, table: string, column: string)
    requires IsWord(raw) && IsWord(table) && IsWord(column)
    ensures IsWord(IndexName(raw, unique, table, column))
  {
  }

  lemma {:induction false} AddTagFit(specs: seq<IndexSpec>, raw: string, unique: bool, table: string, column: string)
    requires SpecsFit(specs) && (raw == "" || IsWord(raw)) && IsWord(table) && IsWord(column)
    ensures SpecsFit(AddTag(specs, raw, unique, table, column))
  {
    if raw != "" {
      IndexNameIsWord(raw, unique, table, column);
      AddColumnFit(specs, IndexName(raw, unique, table, column), unique, column);
    }
  }

  lemma {:induction false} IndexesFit(d: Dialect, table: string, columns: seq<Column>, types: seq<Typing>)
    requires AllFit(d, columns, types) && IsWord(table)
    ensures SpecsFit(Indexes(table, columns))
  {
    if columns != [] {
      var n := |columns| - 1;
      IndexesFit(d, table, columns[..n], types[..n]);
      var c := columns[n];
      assert Fit(d, c, types[n].goType, types[n].size);
      var init := Indexes(table, columns[..n]);
      AddTagFit(init, c.index, false, table, c.name);
      AddTagFit(AddTag(init, c.index, false, table, c.name), c.uniqueIndex, true, table, c.name);
    }
  }

  lemma {:induction false} IndexStart(more: string)
    ensures IsOtherConstraint("INDEX" + more) && !IsKeyEntry("INDEX" + more)
  {
    UpperConcats("INDEX", more);
    assert Upper("INDEX") == "INDEX";
    var upper := Upper("INDEX" + more);
    PrefixStart(upper, "PRIMARY KEY");
    PrefixStart(upper, "CONSTRAINT");
  }

  lemma {:induction false} UniqueStart(more: string)
    ensures IsOtherConstraint("UNIQUE" + more) && !IsKeyEntry("UNIQUE" + more)
  {
    UpperConcats("UNIQUE", more);
    assert Upper("UNIQUE") == "UNIQUE";
    var upper := Upper("UNIQUE" + more);
    PrefixStart(upper, "PRIMARY KEY");
    PrefixStart(upper, "CONSTRAINT");
  }

  lemma {:induction false} IndexGroup(kind: string, q: string, list: string)
    requires kind != "" && !IsSpace(kind[0])
    ensures kind + " " + q + " (" + list + ")" == kind + (" " + q + " (" + list + ")")
    ensures Neat(kind + " " + q + " (" + list + ")")
  {
  }

  lemma {:induction false} TakeIndex(d: Dialect, so: Taken, spec: IndexSpec)
    requires d.MySQL? || d.SQLite?
    ensures TakeEntry(d, so, IndexText(d, spec)) == so
    ensures Neat(IndexText(d, spec))
  {
    IndexIsConstraint(d, spec);
    TrimFixed(IndexText(d, spec));
  }

  lemma {:induction false} IndexIsConstraint(d: Dialect, spec: IndexSpec)
    ensures Neat(IndexText(d, spec)) && !IsKeyEntry(IndexText(d, spec)) && IsOtherConstraint(IndexText(d, spec))
  {
    var more := " " + Quote(d, spec.name) + " (" + Join(QuoteAll(d, spec.columns), ", ") + ")";
    IndexGroup(if spec.unique then "UNIQUE INDEX" else "INDEX", Quote(d, spec.name),
               Join(QuoteAll(d, spec.columns), ", "));
    if spec.unique {
      assert "UNIQUE INDEX" == "UNIQUE" + " INDEX";
      Regroup("UNIQUE", " INDEX", more);
      UniqueStart(" INDEX" + more);
    } else {
      IndexStart(more);
    }
  }

  lemma {:induction false} TakeIndexes(d: Dialect, so: Taken, specs: seq<IndexSpec>)
    requires d.MySQL? || d.SQLite?
    ensures Fold(Taker(d), so, IndexTexts(d, specs)) == so
  {
    var texts := IndexTexts(d, specs);
    var states := seq(|specs| + 1, i requires 0 <= i <= |specs| => so);
    forall i | 0 <= i < |specs| ensures Taker(d)(states[i], texts[i]) == states[i + 1] {
      TakeIndex(d, so, specs[i]);
    }
    FoldStates(Taker(d), texts, states);
  }

  // ---------------------------------------------------------------- the table

  /** The key columns that stand in the key clause. */
  predicate InClause(d: Dialect, c: Column) {
    c.primaryKey && !IsInlineKey(d, c)
  }

  lemma {:induction false} KeyNamesAre(d: Dialect, columns: seq<Column>, name: string)
    ensures name in KeyNames(d, columns) <==>
            exists i :: 0 <= i < |columns| && InClause(d, columns[i]) && columns[i].name == name
  {
    if columns != [] {
      var n := |columns| - 1;
      KeyNamesAre(d, columns[..n], name);
    }
  }

  lemma {:induction false} KeyNamesAreWords(d: Dialect, columns: seq<Column>, types: seq<Typing>)
    requires AllFit(d, columns, types)
    ensures Words(KeyNames(d, columns))
  {
    if columns != [] {
      var n := |columns| - 1;
      KeyNamesAreWords(d, columns[..n], types[..n]);
      assert Fit(d, columns[n], types[n].goType, types[n].size);
    }
  }

  lemma {:induction false} ColumnsAreFine(d: Dialect, columns: seq<Column>, types: seq<Typing>)
    requires AllFit(d, columns, types)
    ensures AllSound(ColumnDefs(d, columns)) && AllNeat(ColumnDefs(d, columns))
  {
    forall i | 0 <= i < |columns| ensures Sound(0, ColumnDef(d, columns[i])) && Neat(ColumnDef(d, columns[i])) {
      SoundColumn(d, columns[i], types[i].goType, types[i].size);
      ColumnIsNeat(d, columns[i], types[i].goType, types[i].size);
    }
  }

  lemma {:induction false} IndexesAreFine(d: Dialect, specs: seq<IndexSpec>)
    requires (d.MySQL? || d.SQLite?) && SpecsFit(specs)
    ensures AllSound(IndexTexts(d, specs)) && AllNeat(IndexTexts(d, specs))
  {
    forall i | 0 <= i < |specs| ensures Sound(0, IndexText(d, specs[i])) && Neat(IndexText(d, specs[i])) {
      SoundIndex(d, specs[i]);
      TakeIndex(d, Taken([], []), specs[i]);
    }
  }

  function KeyEntries(d: Dialect, columns: seq<Column>): seq<string> {
    if KeyNames(d, columns) == [] then [] else [KeyClause(QuoteAll(d, KeyNames(d, columns)))]
  }

  function IndexEntries(d: Dialect, table: string, columns: seq<Column>): seq<string> {
    if d.MySQL? then IndexTexts(d, Indexes(table, columns)) else []
  }

  lemma {:induction false} KeyIsFine(d: Dialect, columns: seq<Column>, types: seq<Typing>, so: Taken)
    requires AllFit(d, columns, types)
    ensures AllSound(KeyEntries(d, columns)) && AllNeat(KeyEntries(d, columns))
    ensures Fold(Taker(d), so, KeyEntries(d, columns)) == Taken(so.columns, so.keys + KeyNames(d, columns))
  {
    var names := KeyNames(d, columns);
    KeyNamesAreWords(d, columns, types);
    if names == [] {
      assert so.keys + [] == so.keys;
    } else {
      SoundKeyClause(d, names);
      TakeKey(d, so, names);
      FoldStates(Taker(d), KeyEntries(d, columns), [so, Taken(so.columns, so.keys + names)]);
    }
  }

  lemma {:induction false} FineConcat(a: seq<string>, b: seq<string>)
    requires AllSound(a) && AllNeat(a) && AllSound(b) && AllNeat(b)
    ensures AllSound(a + b) && AllNeat(a + b)
  {
  }

  /** The entries of a printed table are read one by one. */
  lemma {:induction false} EntriesTaken(d: Dialect, table: string, columns: seq<Column>, types: seq<Typing>)
    requires AllFit(d, columns, types) && IsWord(table)
    ensures AllSound(Entries(d, table, columns)) && AllNeat(Entries(d, table, columns))
    ensures TakeEntries(d, Entries(d, table, columns)) == Taken(RecoveredAll(d, columns, types), KeyNames(d, columns))
  {
    var defs, key, idx := ColumnDefs(d, columns), KeyEntries(d, columns), IndexEntries(d, table, columns);
    var read := Taken(RecoveredAll(d, columns, types), []);
    ColumnsAreFine(d, columns, types);
    TakeColumns(d, columns, types);
    KeyIsFine(d, columns, types, read);
    assert [] + KeyNames(d, columns) == KeyNames(d, columns);
    FineConcat(defs, key);
    IndexesFit(d, table, columns, types);
    IndexesAreFine(d, Indexes(table, columns));
    FineConcat(defs + key, idx);
    TakeIndexes(d, Taken(read.columns, KeyNames(d, columns)), Indexes(table, columns));
    FoldConcat(Taker(d), Taken([], []), defs, key);
    FoldConcat(Taker(d), Taken([], []), defs + key, idx);
    assert Entries(d, table, columns) == defs + key + idx;
  }

  // ---------------------------------------------------------------- the round trip

  /** The columns as the model has them: everything recovered, and the key flag as it was. */
  function Faithful(d: Dialect, columns: seq<Column>, types: seq<Typing>): (r: seq<ParsedColumn>)
    requires AllFit(d, columns, types)
    ensures |r| == |columns|
    ensures forall i :: 0 <= i < |columns| ==>
      r[i] == Recovered(d, columns[i], types[i].goType, types[i].size).(primaryKey := columns[i].primaryKey)
  {
    seq(|columns|, i requires 0 <= i < |columns| =>
      Recovered(d, columns[i], types[i].goType, types[i].size).(primaryKey := columns[i].primaryKey))
  }

  /** No column outside the key has the name of a column in the key clause, up to letter case. */
  predicate KeysTellApart(d: Dialect, columns: seq<Column>) {
    forall i, j :: && 0 <= i < |columns| && 0 <= j < |columns|
                   && InClause(d, columns[j]) && EqualFold(columns[i].name, columns[j].name) ==>
      columns[i].primaryKey
  }

  /** Names distinct up to letter case. */
  predicate DistinctNames(columns: seq<Column>) {
    forall i, j :: 0 <= i < j < |columns| ==> !EqualFold(columns[i].name, columns[j].name)
  }

  lemma {:induction false} NamedIs(d: Dialect, columns: seq<Column>, name: string)
    ensures Named(KeyNames(d, columns), name) <==>
            exists j :: 0 <= j < |columns| && InClause(d, columns[j]) && EqualFold(name, columns[j].name)
  {
    var keys := KeyNames(d, columns);
    if Named(keys, name) {
      var i :| 0 <= i < |keys| && EqualFold(name, keys[i]);
      KeyNamesAre(d, columns, keys[i]);
    }
    if j :| 0 <= j < |columns| && InClause(d, columns[j]) && EqualFold(name, columns[j].name) {
      KeyNamesAre(d, columns, columns[j].name);
      var i :| 0 <= i < |keys| && keys[i] == columns[j].name;
    }
  }

  lemma {:induction false} MarkedIffApart(d: Dialect, columns: seq<Column>, types: seq<Typing>)
    requires AllFit(d, columns, types)
    ensures MarkKeys(RecoveredAll(d, columns, types), KeyNames(d, columns)) == Faithful(d, columns, types) <==>
            KeysTellApart(d, columns)
  {
    var marked, faithful :=
      MarkKeys(RecoveredAll(d, columns, types), KeyNames(d, columns)), Faithful(d, columns, types);
    forall i | 0 <= i < |columns|
      ensures marked[i] == faithful[i] <==>
              (forall j :: 0 <= j < |columns| && InClause(d, columns[j]) && EqualFold(columns[i].name, columns[j].name)
                           ==> columns[i].primaryKey)
    {
      NamedIs(d, columns, columns[i].name);
      if InClause(d, columns[i]) {
        assert EqualFold(columns[i].name, columns[i].name);
      }
    }
    if marked == faithful {
      assert forall i :: 0 <= i < |columns| ==> marked[i] == faithful[i];
    }
  }

  /** The round trip of a CREATE TABLE statement, for MySQL and SQLite: any list of columns with word names and
      no default or comment, with or without indexes. The table name, the column order and names, the canonical
      Go types, the auto-increment flags, NOT NULL and the key come back, exactly when no column outside the key
      shares its name, up to letter case, with a column of the key clause. */
  lemma {:induction false} TableRoundTrip(d: Dialect, table: string, columns: seq<Column>, types: seq<Typing>,
                                          ifNotExists: bool)
    requires AllFit(d, columns, types) && IsWord(table)
    ensures ParseTable(d, CreateTableText(d, table, columns, ifNotExists)) ==
            Ok(ParsedTable(table, Faithful(d, columns, types))) <==>
            KeysTellApart(d, columns)
  {
    EntriesTaken(d, table, columns, types);
    ParseOf(d, table, ifNotExists, Entries(d, table, columns), EngineText(d));
    MarkedIffApart(d, columns, types);
  }

  /** Distinct names are enough. */
  lemma {:induction false} DistinctNamesRoundTrip(d: Dialect, table: string, columns: seq<Column>, types: seq<Typing>,
                                                  ifNotExists: bool)
    requires AllFit(d, columns, types) && IsWord(table) && DistinctNames(columns)
    ensures ParseTable(d, CreateTableText(d, table, columns, ifNotExists)) ==
            Ok(ParsedTable(table, Faithful(d, columns, types)))
  {
    TableRoundTrip(d, table, columns, types, ifNotExists);
    forall i, j | 0 <= i < |columns| && 0 <= j < |columns| && InClause(d, columns[j]) &&
      EqualFold(columns[i].name, columns[j].name)
      ensures columns[i].primaryKey
    {
      assert EqualFold(columns[j].name, columns[i].name);
      assert i == j;
    }
  }
}
