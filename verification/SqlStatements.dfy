/** The parser's entry points: the header search in place, one statement, and a whole script. */
module SqlStatements {
  import opened Text
  import opened Folds
  import opened SqlScan
  import opened SqlLayout
  import opened SqlDdl
  import opened SqlTypes
  import opened SqlParse
  import opened SqlColumns
  import opened SqlEntries
  import opened SqlTableTrip
  import opened SqlCutting

  // ---------------------------------------------------------------- suffixes

  predicate IsSuffix(r: string, s: string) {
    |r| <= |s| && s[|s| - |r|..] == r
  }

  lemma {:induction false} SuffixDrop(s: string, n: nat)
    requires n <= |s|
    ensures IsSuffix(s[n..], s)
  {
  }

  lemma {:induction false} SuffixOf(a: string, b: string, c: string)
    requires IsSuffix(a, b) && IsSuffix(b, c)
    ensures IsSuffix(a, c)
  {
    assert c[|c| - |b|..][|b| - |a|..] == c[|c| - |a|..];
  }

  lemma {:induction false} BlanksSuffix(s: string)
    ensures IsSuffix(EatBlanks(s), s)
  {
    if s != "" && IsBlank(s[0]) {
      BlanksSuffix(s[1..]);
      SuffixDrop(s, 1);
      SuffixOf(EatBlanks(s[1..]), s[1..], s);
    } else {
      SuffixDrop(s, 0);
    }
  }

  lemma {:induction false} EatSuffix(word: string, s: string)
    ensures Eat(word, s).Some? ==> IsSuffix(Eat(word, s).value, s)
    decreases |word|
  {
    SuffixDrop(s, 0);
    if word != "" && s != "" && UpperChar(s[0]) == word[0] {
      EatSuffix(word[1..], s[1..]);
      SuffixDrop(s, 1);
      if Eat(word, s).Some? {
        SuffixOf(Eat(word, s).value, s[1..], s);
      }
    }
  }

  lemma {:induction false} KeywordSuffix(word: string, s: string)
    ensures EatKeyword(word, s).Some? ==> IsSuffix(EatKeyword(word, s).value, s)
  {
    if EatKeyword(word, s).Some? {
      EatSuffix(word, s);
      var t := Eat(word, s).value;
      SuffixDrop(t, 1);
      BlanksSuffix(t[1..]);
      SuffixOf(EatBlanks(t[1..]), t[1..], t);
      SuffixOf(EatBlanks(t[1..]), t, s);
    }
  }

  lemma {:induction false} OneSuffix(s: string, marks: set<char>)
    ensures IsSuffix(EatOne(s, marks), s)
  {
    SuffixDrop(s, 0);
  }

  lemma {:induction false} NameSuffix(s: string)
    ensures MatchName(s).Some? ==> IsSuffix(MatchName(s).value.rest, s)
  {
    var t := EatOne(s, OPEN_MARKS);
    var n := WordLength(t);
    var u := EatOne(t[n..], CLOSE_MARKS);
    OneSuffix(s, OPEN_MARKS);
    SuffixDrop(t, n);
    OneSuffix(t[n..], CLOSE_MARKS);
    BlanksSuffix(u);
    SuffixOf(EatBlanks(u), u, t[n..]);
    SuffixOf(EatBlanks(u), t[n..], t);
    SuffixOf(EatBlanks(u), t, s);
  }

  lemma {:induction false} WordsSuffix(words: seq<string>, s: string)
    ensures MatchWords(words, s).Some? ==> IsSuffix(MatchWords(words, s).value.rest, s)
    decreases |words|
  {
    if words == [] {
      NameSuffix(s);
    } else {
      KeywordSuffix(words[0], s);
      var t := EatKeyword(words[0], s);
      if t.Some? {
        WordsSuffix(words[1..], t.value);
        if MatchWords(words, s).Some? {
          SuffixOf(MatchWords(words, s).value.rest, t.value, s);
        }
      }
    }
  }

  lemma {:induction false} HeaderSuffix(s: string)
    ensures MatchHeader(s).Some? ==> IsSuffix(MatchHeader(s).value.rest, s)
  {
    WordsSuffix(PLAIN + GUARD, s);
    WordsSuffix(PLAIN, s);
  }

  lemma {:induction false} FoundSuffix(s: string)
    ensures FindHeader(s).Some? ==> IsSuffix(FindHeader(s).value.1.rest, s)
  {
    HeaderSuffix(s);
    if MatchHeader(s).None? && s != "" {
      FoundSuffix(s[1..]);
      SuffixDrop(s, 1);
      if FindHeader(s[1..]).Some? {
        SuffixOf(FindHeader(s[1..]).value.1.rest, s[1..], s);
      }
    }
  }

  /** Where the leftmost header starts, and where its parenthesis stands. */
  function HeaderAt(text: string): Option<(nat, nat)> {
    match FindHeader(text)
    case None => None
    case Some((skip, h)) => Some((skip, |text| - |h.rest|))
  }

  function Headers(): Finder {
    s => HeaderAt(s)
  }

  lemma {:induction false} HeadersAreProper()
    ensures Proper(Headers())
  {
    forall s ensures Fits(Headers()(s), s) {
      FoundSuffix(s);
    }
  }

  // ---------------------------------------------------------------- parsing a statement

  /** The loop over the entries of a table body. */
  method TakeColumnDefs(d: Dialect, pieces: seq<string>) returns (fields: seq<ParsedColumn>, primaryKeys: seq<string>)
    ensures Taken(fields, primaryKeys) == TakeEntries(d, pieces)
  {
    fields, primaryKeys := [], [];
    for i := 0 to |pieces|
      invariant Taken(fields, primaryKeys) == TakeEntries(d, pieces[..i])
    {
      TakeNext(d, pieces, i);
      var colDef := TrimSpace(pieces[i]);
      if colDef == "" {
        continue;
      }
      if IsKeyEntry(colDef) {
        primaryKeys := primaryKeys + KeyColumns(colDef);
        continue;
      }
      if IsOtherConstraint(colDef) {
        continue;
      }
      var col := ParseColumn(d, colDef);
      if col.None? {
        continue;
      }
      fields := fields + [col.value];
    }
    assert pieces[..|pieces|] == pieces;
  }

  lemma {:induction false} TakeNext(d: Dialect, pieces: seq<string>, i: nat)
    requires i < |pieces|
    ensures TakeEntries(d, pieces[..i + 1]) == TakeEntry(d, TakeEntries(d, pieces[..i]), pieces[i])
  {
    assert pieces[..i + 1][..i] == pieces[..i];
  }

  /** The two nested loops that mark the key columns. */
  method MarkPrimaryKeys(columns: seq<ParsedColumn>, keys: seq<string>) returns (fields: seq<ParsedColumn>)
    ensures fields == MarkKeys(columns, keys)
  {
    fields := columns;
    for i := 0 to |columns|
      invariant |fields| == |columns|
      invariant forall k :: 0 <= k < i ==> fields[k] == MarkKeys(columns, keys)[k]
      invariant forall k :: i <= k < |columns| ==> fields[k] == columns[k]
    {
      for j := 0 to |keys|
        invariant |fields| == |columns|
        invariant forall k :: 0 <= k < |columns| && k != i ==>
                  fields[k] == if k < i then MarkKeys(columns, keys)[k] else columns[k]
        invariant fields[i] == columns[i].(primaryKey := columns[i].primaryKey || Named(keys[..j], columns[i].name))
      {
        NamedNext(keys, j, columns[i].name);
        if EqualFold(fields[i].name, keys[j]) {
          fields := fields[i := fields[i].(primaryKey := true)];
        }
      }
      assert keys[..|keys|] == keys;
    }
  }

  lemma {:induction false} NamedNext(keys: seq<string>, j: nat, name: string)
    requires j < |keys|
    ensures Named(keys[..j + 1], name) <==> Named(keys[..j], name) || EqualFold(name, keys[j])
  {
    if Named(keys[..j], name) {
      var i :| 0 <= i < j && EqualFold(name, keys[i]);
      assert keys[..j + 1][i] == keys[i];
    }
    if EqualFold(name, keys[j]) {
      assert keys[..j + 1][j] == keys[j];
    }
    if Named(keys[..j + 1], name) && !EqualFold(name, keys[j]) {
      var i :| 0 <= i < j + 1 && EqualFold(name, keys[..j + 1][i]);
      assert keys[..j][i] == keys[i];
    }
  }

  /** The columns of a table body. */
  method ParseColumns(d: Dialect, body: string) returns (fields: seq<ParsedColumn>)
    ensures fields == ColumnsOf(d, body)
  {
    var columns := SplitColumns(body);
    var primaryKeys;
    fields, primaryKeys := TakeColumnDefs(d, columns);
    fields := MarkPrimaryKeys(fields, primaryKeys);
  }

  lemma {:induction false} BodySlice(sql: string, rest: string, close: nat)
    requires IsSuffix(rest, sql) && 0 < close < |rest|
    ensures var open := |sql| - |rest|; sql[open + 1..open + close] == rest[1..close]
  {
    SliceOfDrop(sql, |sql| - |rest|, 1, close);
  }

  lemma {:induction false} SliceOfDrop(s: string, a: nat, b: nat, c: nat)
    requires b <= c && a + c <= |s|
    ensures s[a..][b..c] == s[a + b..a + c]
  {
  }

  lemma {:induction false} StopIsLater(rest: string)
    requires rest != "" && rest[0] == '('
    ensures Stop(START, rest).Some? ==> Stop(START, rest).value > 0
  {
  }

  /** The header, its parenthesis, and the body between. */
  method LocateBody(sql: string) returns (r: Option<(string, string)>)
    ensures r == BodyOf(sql)
  {
    var found := FindHeader(sql);
    if found.None? {
      return None;
    }
    var (skip, h) := found.value;
    FoundSuffix(sql);
    var openParen := |sql| - |h.rest|;
    var closeParen := FindMatchingParen(sql, openParen);
    if closeParen < 0 {
      return None;
    }
    StopIsLater(h.rest);
    BodySlice(sql, h.rest, closeParen - openParen);
    BodyFound(sql, skip, h, closeParen - openParen, sql[openParen + 1..closeParen]);
    return Some((h.name, sql[openParen + 1..closeParen]));
  }

  /** parseCreateTable. */
  method ParseCreateTable(d: Dialect, sql: string) returns (r: Result<ParsedTable, ParseError>)
    ensures r == ParseTable(d, sql)
  {
    var body := LocateBody(sql);
    if body.None? {
      return Err(ParseFailed);
    }
    var fields := ParseColumns(d, body.value.1);
    return Ok(ParsedTable(body.value.0, fields));
  }

  // ---------------------------------------------------------------- a whole script

  /** The values of the results that are not errors. */
  function Successes<T, E>(results: seq<Result<T, E>>): seq<T> {
    if results == [] then []
    else
      var init := Successes(results[..|results| - 1]);
      match results[|results| - 1]
      case Ok(t) => init + [t]
      case Err(_) => init
  }

  function Results(d: Dialect, statements: seq<string>): (r: seq<Result<ParsedTable, ParseError>>)
    ensures |r| == |statements| && forall i :: 0 <= i < |statements| ==> r[i] == ParseTable(d, statements[i])
  {
    seq(|statements|, i requires 0 <= i < |statements| => ParseTable(d, statements[i]))
  }

  /** The tables of the statements that parse. */
  function ParsedTables(d: Dialect, statements: seq<string>): seq<ParsedTable>
  {
    Successes(Results(d, statements))
  }

  lemma {:induction false} AllSucceed<T, E>(results: seq<Result<T, E>>, values: seq<T>)
    requires |results| == |values| && forall i :: 0 <= i < |values| ==> results[i] == Ok(values[i])
    ensures Successes(results) == values
  {
    if results != [] {
      var n := |results| - 1;
      AllSucceed(results[..n], values[..n]);
    }
  }

  lemma {:induction false} SuccessesNext<T, E>(results: seq<Result<T, E>>, i: nat)
    requires i < |results|
    ensures Successes(results[..i + 1]) == Successes(results[..i]) + if results[i].Ok? then [results[i].value] else []
  {
    assert results[..i + 1][..i] == results[..i];
  }

  /** The loop over the statements: those that fail to parse are skipped. */
  method ParseEach(d: Dialect, tables: seq<string>) returns (schemas: seq<ParsedTable>)
    ensures schemas == ParsedTables(d, tables)
  {
    ghost var results := Results(d, tables);
    schemas := [];
    for i := 0 to |tables|
      invariant schemas == Successes(results[..i])
    {
      SuccessesNext(results, i);
      var r := ParseCreateTable(d, tables[i]);
      if r.Err? {
        continue;
      }
      schemas := schemas + [r.value];
    }
    assert results[..|tables|] == results;
  }

  /** Parse: find the statements and parse each. */
  method ParseScript(d: Dialect, sql: string) returns (schemas: seq<ParsedTable>)
    ensures Proper(Headers()) && schemas == ParsedTables(d, Statements(Headers(), sql))
  {
    HeadersAreProper();
    var tables := FindStatements(Headers(), sql);
    schemas := ParseEach(d, tables);
  }
}
