/** The round trip of a script: several tables printed one after the other, cut apart and parsed again. */
module SqlScript {
  import opened Text
  import opened SqlScan
  import opened SqlLayout
  import opened SqlDdl
  import opened SqlTypes
  import opened SqlParse
  import opened SqlColumns
  import opened SqlEntries
  import opened SqlTableTrip
  import opened SqlRoundTrip
  import opened SqlCutting
  import opened SqlStatements

  lemma {:induction false} NoHeaderAtBreak(text: string)
    ensures MatchHeader("\n" + text) == None
  {
    assert PLAIN[0] == "CREATE" && (PLAIN + GUARD)[0] == "CREATE" && "CREATE"[0] == 'C';
    assert Eat("CREATE", "\n" + text) == None;
  }

  /** A line break before a header is skipped. */
  lemma {:induction false} HeaderAfterBreak(text: string, h: Header)
    requires FindHeader(text) == Some((0, h))
    ensures FindHeader("\n" + text) == Some((1, h))
  {
    NoHeaderAtBreak(text);
    assert ("\n" + text)[1..] == text;
  }

  lemma {:induction false} HeaderAtIs(text: string, skip: nat, h: Header)
    requires FindHeader(text) == Some((skip, h))
    ensures Headers()(text) == Some((skip, |text| - |h.rest|))
  {
  }

  lemma {:induction false} HeaderBehindBreak(text: string, h: Header)
    requires FindHeader(text) == Some((0, h))
    ensures Headers()("\n" + text) == Some((1, 1 + |text| - |h.rest|))
  {
    HeaderAfterBreak(text, h);
    HeaderAtIs("\n" + text, 1, h);
  }

  /** A printed statement, in its three parts. */
  function PrintedPiece(d: Dialect, table: string, ifNotExists: bool, entries: seq<string>): Piece {
    Piece(HeadText(d, table, ifNotExists), "(" + Body(entries) + ")", EngineText(d))
  }

  lemma {:induction false} RestIs(entries: seq<string>, engine: string, more: string)
    ensures FromParen(entries, engine) + more == ("(" + Body(entries) + ")") + (engine + ";" + more)
  {
    var open := "(" + Body(entries);
    assert open + (")" + engine + ";") + more == (open + ")") + (engine + ";" + more);
  }

  lemma {:induction false} HeaderInFront(text: string, h: Header)
    requires FindHeader(text) == Some((0, h))
    ensures Headers()("" + text) == Some((0, |text| - |h.rest|))
  {
    assert "" + text == text;
    HeaderAtIs(text, 0, h);
  }

  lemma {:induction false} PrintedIsFound(d: Dialect, table: string, ifNotExists: bool, head: string, rest: string)
    requires IsWord(table) && rest != "" && rest[0] == '(' && head == HeadText(d, table, ifNotExists)
    ensures Found(Headers(), head, rest)
  {
    HeaderRead(d, table, ifNotExists, rest);
    HeaderInFront(head + rest, Header(table, rest));
    HeaderBehindBreak(head + rest, Header(table, rest));
  }

  lemma {:induction false} PrintedIsFoundAlways(d: Dialect, table: string, ifNotExists: bool)
    requires IsWord(table)
    ensures FoundAlways(Headers(), HeadText(d, table, ifNotExists))
  {
    var head := HeadText(d, table, ifNotExists);
    forall rest | rest != "" && rest[0] == '(' ensures Found(Headers(), head, rest) {
      PrintedIsFound(d, table, ifNotExists, head, rest);
    }
  }

  lemma {:induction false} PrintedStops(entries: seq<string>, engine: string, more: string)
    requires AllSound(entries)
    ensures StopsAfter("(" + Body(entries) + ")", engine + ";" + more)
  {
    RestIs(entries, engine, more);
    SoundIsCalm(entries);
    StopIs(entries, engine, more);
  }

  lemma {:induction false} PrintedStopsAlways(entries: seq<string>, engine: string)
    requires AllSound(entries)
    ensures StopsAlways("(" + Body(entries) + ")", engine)
  {
    forall more ensures StopsAfter("(" + Body(entries) + ")", engine + ";" + more) {
      PrintedStops(entries, engine, more);
    }
  }

  lemma {:induction false} EndingIsFit(d: Dialect)
    ensures ';' !in EngineText(d)
  {
  }

  lemma {:induction false} PrintedIsSeen(d: Dialect, table: string, ifNotExists: bool, entries: seq<string>)
    requires IsWord(table) && AllSound(entries)
    ensures Seen(Headers(), PrintedPiece(d, table, ifNotExists, entries))
  {
    PrintedIsFoundAlways(d, table, ifNotExists);
    PrintedStopsAlways(entries, EngineText(d));
    EndingIsFit(d);
  }

  lemma {:induction false} PrintedText(d: Dialect, table: string, ifNotExists: bool, entries: seq<string>)
    ensures PieceText(PrintedPiece(d, table, ifNotExists, entries)) ==
            Table(HeadText(d, table, ifNotExists), entries, EngineText(d))
  {
    var p := PrintedPiece(d, table, ifNotExists, entries);
    var rest := FromParen(entries, p.ending);
    TableIs(p.head, entries, p.ending);
    RestIs(entries, p.ending, "");
    assert rest + "" == rest && p.ending + ";" + "" == p.ending + ";";
  }

  // ---------------------------------------------------------------- the round trip

  /** A table to print. */
  datatype TableSpec = TableSpec(name: string, columns: seq<Column>, types: seq<Typing>, ifNotExists: bool)

  predicate SpecIsFit(d: Dialect, t: TableSpec) {
    AllFit(d, t.columns, t.types) && IsWord(t.name)
  }

  function Printed(d: Dialect, specs: seq<TableSpec>): (r: seq<string>)
    ensures |r| == |specs|
    ensures forall i :: 0 <= i < |specs| ==>
            r[i] == CreateTableText(d, specs[i].name, specs[i].columns, specs[i].ifNotExists)
  {
    seq(|specs|,
        i requires 0 <= i < |specs| => CreateTableText(d, specs[i].name, specs[i].columns, specs[i].ifNotExists))
  }

  /** A batch of printed statements, joined with line breaks, is cut into exactly those statements. */
  lemma {:induction false} BatchIsCutApart(d: Dialect, specs: seq<TableSpec>)
    requires forall i :: 0 <= i < |specs| ==> SpecIsFit(d, specs[i])
    ensures Proper(Headers()) && Statements(Headers(), Join(Printed(d, specs), "\n")) == Printed(d, specs)
  {
    HeadersAreProper();
    var ps := seq(|specs|, i requires 0 <= i < |specs| =>
      PrintedPiece(d, specs[i].name, specs[i].ifNotExists, Entries(d, specs[i].name, specs[i].columns)));
    forall i | 0 <= i < |specs| ensures Seen(Headers(), ps[i]) && PieceText(ps[i]) == Printed(d, specs)[i] {
      EntriesTaken(d, specs[i].name, specs[i].columns, specs[i].types);
      PrintedIsSeen(d, specs[i].name, specs[i].ifNotExists, Entries(d, specs[i].name, specs[i].columns));
      PrintedText(d, specs[i].name, specs[i].ifNotExists, Entries(d, specs[i].name, specs[i].columns));
    }
    ScriptCut(Headers(), ps);
    assert PieceTexts(ps) == Printed(d, specs);
  }

  function ExpectedTable(d: Dialect, t: TableSpec): ParsedTable
    requires SpecIsFit(d, t)
  {
    ParsedTable(t.name, Faithful(d, t.columns, t.types))
  }

  function Expected(d: Dialect, specs: seq<TableSpec>): (r: seq<ParsedTable>)
    requires forall i :: 0 <= i < |specs| ==> SpecIsFit(d, specs[i])
    ensures |r| == |specs|
    ensures forall i :: 0 <= i < |specs| ==> r[i] == ExpectedTable(d, specs[i])
  {
    seq(|specs|, i requires 0 <= i < |specs| => ExpectedTable(d, specs[i]))
  }

  /** Printing any list of tables and parsing the script gives all of them back, in order. */
  lemma {:induction false} ScriptRoundTrip(d: Dialect, specs: seq<TableSpec>)
    requires d.MySQL? || d.SQLite?
    requires forall i :: 0 <= i < |specs| ==> SpecIsFit(d, specs[i]) && KeysTellApart(d, specs[i].columns)
    ensures Proper(Headers()) &&
            ParsedTables(d, Statements(Headers(), Join(Printed(d, specs), "\n"))) == Expected(d, specs)
  {
    BatchIsCutApart(d, specs);
    forall i | 0 <= i < |specs| ensures ParseTable(d, Printed(d, specs)[i]) == Ok(Expected(d, specs)[i]) {
      TableRoundTrip(d, specs[i].name, specs[i].columns, specs[i].types, specs[i].ifNotExists);
    }
    AllSucceed(Results(d, Printed(d, specs)), Expected(d, specs));
  }
}
