/** A printed CREATE TABLE statement is parsed back. */
module SqlTableTrip {
  import opened Text
  import opened Folds
  import opened SqlScan
  import opened SqlLayout
  import opened SqlDdl
  import opened SqlTypes
  import opened SqlParse
  import opened SqlColumns
  import opened SqlModifiers
  import opened SqlColumnTrip
  import opened SqlEntries

  // ---------------------------------------------------------------- the header

  predicate IsKeyword(word: string) {
    forall i :: 0 <= i < |word| ==> 'A' <= word[i] <= 'Z'
  }

  lemma {:induction false} EatWord(word: string, rest: string)
    requires IsKeyword(word)
    ensures Eat(word, word + rest) == Some(rest)
    decreases |word|
  {
    if word == "" {
      assert word + rest == rest;
    } else {
      AppendTail(word, rest);
      EatWord(word[1..], rest);
    }
  }

  lemma {:induction false} EatWordAndSpace(word: string, rest: string)
    requires IsKeyword(word) && (rest == "" || !IsBlank(rest[0]))
    ensures EatKeyword(word, word + " " + rest) == Some(rest)
  {
    EatWord(word, " " + rest);
    assert word + (" " + rest) == word + " " + rest;
    assert (" " + rest)[1..] == rest;
  }

  lemma {:induction false} EatSpace(rest: string)
    requires rest != "" && rest[0] == '('
    ensures EatBlanks(" " + rest) == rest
  {
    assert (" " + rest)[1..] == rest;
    assert EatBlanks(rest) == rest;
  }

  lemma {:induction false} ReadMarked(open: char, name: string, close: char, rest: string)
    requires open in OPEN_MARKS && close in CLOSE_MARKS && IsWord(name) && rest != "" && rest[0] == '('
    ensures MatchName([open] + (name + ([close] + (" " + rest)))) == Some(Header(name, rest))
  {
    var after := [close] + (" " + rest);
    var t := name + after;
    assert ([open] + t)[1..] == t;
    WordLengthOf(name, after);
    assert t[..|name|] == name && t[|name|..] == after;
    assert after[1..] == " " + rest;
    EatSpace(rest);
  }

  lemma {:induction false} MarkedIs(open: string, name: string, close: string, rest: string)
    ensures (open + name + close) + " " + rest == open + (name + (close + (" " + rest)))
  {
  }

  lemma {:induction false} ReadName(d: Dialect, name: string, rest: string)
    requires IsWord(name) && rest != "" && rest[0] == '('
    ensures MatchName(Quote(d, name) + " " + rest) == Some(Header(name, rest))
  {
    var (open, close) := match d
      case MySQL => ('`', '`')
      case PostgreSQL => ('"', '"')
      case SQLite => ('"', '"')
      case SQLServer => ('[', ']');
    assert Quote(d, name) == [open] + name + [close];
    MarkedIs([open], name, [close], rest);
    ReadMarked(open, name, close, rest);
  }

  /** The words, each with a space after it. */
  function Spelled(words: seq<string>): string {
    if words == [] then "" else words[0] + " " + Spelled(words[1..])
  }

  predicate Keywords(words: seq<string>) {
    forall i :: 0 <= i < |words| ==> words[i] != "" && IsKeyword(words[i])
  }

  lemma {:induction false} SpelledStart(words: seq<string>, s: string)
    requires Keywords(words) && s != "" && !IsBlank(s[0])
    ensures Spelled(words) + s != "" && !IsBlank((Spelled(words) + s)[0])
  {
    if words == [] {
      assert Spelled(words) + s == s;
    } else {
      assert IsKeyword(words[0]);
      assert (Spelled(words) + s)[0] == words[0][0];
    }
  }

  /** Words that are spelled out are read. */
  lemma {:induction false} WordsRead(words: seq<string>, more: seq<string>, s: string)
    requires Keywords(words) && s != "" && !IsBlank(s[0])
    ensures MatchWords(words + more, Spelled(words) + s) == MatchWords(more, s)
    decreases |words|
  {
    if words == [] {
      assert words + more == more && Spelled(words) + s == s;
    } else {
      var rest := Spelled(words[1..]) + s;
      SpelledStart(words[1..], s);
      EatWordAndSpace(words[0], rest);
      assert Spelled(words) + s == words[0] + " " + rest;
      assert (words + more)[1..] == words[1..] + more;
      WordsRead(words[1..], more, s);
    }
  }

  lemma {:induction false} NoGuard(s: string)
    requires s != "" && !('A' <= UpperChar(s[0]) <= 'Z')
    ensures MatchWords(GUARD, s) == None
  {
    assert "IF"[0] == 'I';
    assert Eat("IF", s) == None;
  }

  lemma {:induction false} PlainIs()
    ensures Keywords(PLAIN) && Spelled(PLAIN) == "CREATE TABLE "
  {
    assert PLAIN[1..] == ["TABLE"] && PLAIN[1..][1..] == [];
    assert Spelled(["TABLE"]) == "TABLE" + " " + "";
    assert "CREATE TABLE " == "CREATE" + " " + ("TABLE" + " " + "");
  }

  lemma {:induction false} GuardIs()
    ensures Keywords(GUARD) && Spelled(GUARD) == "IF NOT EXISTS "
  {
    assert GUARD[1..] == ["NOT", "EXISTS"] && GUARD[1..][1..] == ["EXISTS"] && GUARD[1..][1..][1..] == [];
    assert Spelled(["EXISTS"]) == "EXISTS" + " " + "";
    assert "IF NOT EXISTS " == "IF" + " " + ("NOT" + " " + ("EXISTS" + " " + ""));
  }

  lemma {:induction false} HeadGrouping(c: string, g: string, q: string, rest: string)
    ensures (c + g + q + " ") + rest == c + (g + (q + " " + rest))
  {
  }

  /** What the two attempts at a header give. */
  lemma {:induction false} HeaderTried(text: string, h: Header)
    requires MatchWords(PLAIN + GUARD, text) == Some(h) ||
             (MatchWords(PLAIN + GUARD, text) == None && MatchWords(PLAIN, text) == Some(h))
    ensures FindHeader(text) == Some((0, h))
  {
  }

  lemma {:induction false} PlainRead(s: string, h: Header)
    requires s != "" && !IsBlank(s[0]) && !('A' <= UpperChar(s[0]) <= 'Z') && MatchName(s) == Some(h)
    ensures FindHeader("CREATE TABLE " + s) == Some((0, h))
  {
    PlainIs();
    NoGuard(s);
    WordsRead(PLAIN, GUARD, s);
    WordsRead(PLAIN, [], s);
    assert PLAIN + [] == PLAIN;
    HeaderTried("CREATE TABLE " + s, h);
  }

  lemma {:induction false} GuardedRead(s: string, h: Header)
    requires s != "" && !IsBlank(s[0]) && MatchName(s) == Some(h)
    ensures FindHeader("CREATE TABLE " + ("IF NOT EXISTS " + s)) == Some((0, h))
  {
    PlainIs();
    GuardIs();
    var t := "IF NOT EXISTS " + s;
    assert t[0] == 'I';
    WordsRead(PLAIN, GUARD, t);
    WordsRead(GUARD, [], s);
    assert GUARD + [] == GUARD;
    HeaderTried("CREATE TABLE " + t, h);
  }

  lemma {:induction false} QuoteStart(d: Dialect, name: string, rest: string)
    ensures var s := Quote(d, name) + rest; s != "" && !IsBlank(s[0]) && !('A' <= UpperChar(s[0]) <= 'Z')
  {
    assert (Quote(d, name) + rest)[0] == Quote(d, name)[0];
  }

  /** The printed header is found, at once, with the table's name. */
  lemma {:induction false} HeaderRead(d: Dialect, table: string, ifNotExists: bool, rest: string)
    requires IsWord(table) && rest != "" && rest[0] == '('
    ensures FindHeader(HeadText(d, table, ifNotExists) + rest) == Some((0, Header(table, rest)))
  {
    var s := Quote(d, table) + " " + rest;
    QuoteStart(d, table, " " + rest);
    Regroup(Quote(d, table), " ", rest);
    ReadName(d, table, rest);
    HeadGrouping("CREATE TABLE ", if ifNotExists then "IF NOT EXISTS " else "", Quote(d, table), rest);
    if ifNotExists {
      GuardedRead(s, Header(table, rest));
    } else {
      assert "" + s == s;
      PlainRead(s, Header(table, rest));
    }
  }

  // ---------------------------------------------------------------- the body

  lemma {:induction false} CalmConcat(depth: nat, a: string, b: string)
    requires Calm(depth, a) && Calm(depth, b)
    ensures Calm(depth, a + b)
  {
    RunConcat(At(depth), a, b);
    QuietConcat(At(depth), a, b);
  }

  lemma {:induction false} CalmJoin(depth: nat, parts: seq<string>, sep: string)
    requires Calm(depth, sep) && forall i :: 0 <= i < |parts| ==> Calm(depth, parts[i])
    ensures Calm(depth, Join(parts, sep))
  {
    if |parts| > 1 {
      CalmJoin(depth, parts[1..], sep);
      CalmConcat(depth, parts[0], sep);
      CalmConcat(depth, parts[0] + sep, Join(parts[1..], sep));
    }
  }

  predicate AllSound(entries: seq<string>) {
    forall i :: 0 <= i < |entries| ==> Sound(0, entries[i])
  }

  predicate AllCalm(entries: seq<string>) {
    forall i :: 0 <= i < |entries| ==> Calm(1, entries[i])
  }

  lemma {:induction false} SoundIsCalm(entries: seq<string>)
    requires AllSound(entries)
    ensures AllCalm(entries)
  {
    forall i | 0 <= i < |entries| ensures Calm(1, entries[i]) {
      assert Sound(0, entries[i]);
    }
  }

  lemma {:induction false} BodyCalm(entries: seq<string>)
    requires AllCalm(entries)
    ensures Calm(1, Body(entries))
  {
    SoundPlain(0, "\n");
    SoundPlain(0, "\n  ");
    SoundPlain(1, ",");
    RunOne(At(1), ',');
    forall i | 0 <= i < |entries| ensures Calm(1, Indented(entries)[i]) {
      CalmConcat(1, "\n  ", entries[i]);
    }
    CalmJoin(1, Indented(entries), ",");
    CalmConcat(1, if entries == [] then "\n" else Join(Indented(entries), ","), "\n");
  }

  /** The text from the open parenthesis to the end of the statement. */
  function FromParen(entries: seq<string>, engine: string): string {
    "(" + Body(entries) + (")" + engine + ";")
  }

  lemma {:induction false} StopIs(entries: seq<string>, engine: string, more: string)
    requires AllCalm(entries)
    ensures var rest := FromParen(entries, engine) + more;
            Stop(START, rest) == Some(1 + |Body(entries)|) && rest[1..1 + |Body(entries)|] == Body(entries)
  {
    var body := Body(entries);
    var after := ")" + engine + ";" + more;
    BodyCalm(entries);
    RunOne(START, '(');
    RunConcat(START, "(", body);
    QuietConcat(START, "(", body);
    StopAfterQuiet(START, "(" + body, after);
    assert FromParen(entries, engine) + more == ("(" + body) + after;
  }

  // ---------------------------------------------------------------- the pieces

  /** The pieces between top-level commas. */
  function Pieces(entries: seq<string>): (r: seq<string>)
    ensures |r| == |entries|
    ensures forall i :: 0 <= i < |entries| ==> r[i] == "\n  " + entries[i] + if i == |entries| - 1 then "\n" else ""
  {
    seq(|entries|, i requires 0 <= i < |entries| => "\n  " + entries[i] + if i == |entries| - 1 then "\n" else "")
  }

  lemma {:induction false} PiecesJoin(entries: seq<string>)
    requires entries != []
    ensures Join(Pieces(entries), ",") == Join(Indented(entries), ",") + "\n"
  {
    var head := "\n  " + entries[0];
    if |entries| > 1 {
      PiecesJoin(entries[1..]);
      assert Indented(entries)[1..] == Indented(entries[1..]);
      assert Pieces(entries)[1..] == Pieces(entries[1..]);
      assert head + "" == head;
      var rest := Join(Indented(entries[1..]), ",");
      assert head + "," + (rest + "\n") == head + "," + rest + "\n";
    }
  }

  lemma {:induction false} PieceIsWhole(entry: string, tail: string)
    requires Sound(0, entry) && (tail == "\n" || tail == "")
    ensures Whole("\n  " + entry + tail)
  {
    SoundPlain(0, tail);
    SoundPlain(0, "\n  ");
    SoundConcat(0, "\n  ", entry);
    SoundConcat(0, "\n  " + entry, tail);
  }

  lemma {:induction false} BodySplit(entries: seq<string>)
    requires AllSound(entries) && entries != []
    ensures SplitTop(Body(entries), 0, "") == Pieces(entries)
  {
    PiecesJoin(entries);
    forall i | 0 <= i < |entries| ensures Whole(Pieces(entries)[i]) {
      PieceIsWhole(entries[i], if i == |entries| - 1 then "\n" else "");
    }
    SplitOfJoinPieces(Pieces(entries));
  }

  predicate Neat(entry: string) {
    entry != "" && Trimmed(entry)
  }

  predicate AllNeat(entries: seq<string>) {
    forall i :: 0 <= i < |entries| ==> Neat(entries[i])
  }

  lemma {:induction false} TakeTrimmed(d: Dialect, pieces: seq<string>, entries: seq<string>)
    requires (d.MySQL? || d.SQLite?) && |pieces| == |entries|
    requires forall i :: 0 <= i < |pieces| ==> TrimSpace(pieces[i]) == TrimSpace(entries[i])
    ensures TakeEntries(d, pieces) == TakeEntries(d, entries)
  {
    FoldAlike(Taker(d), Taken([], []), pieces, entries);
  }

  lemma {:induction false} PieceTrims(entry: string, tail: string)
    requires Neat(entry) && (tail == "\n" || tail == "")
    ensures TrimSpace("\n  " + entry + tail) == TrimSpace(entry)
  {
    TrimPadded("\n  ", entry, tail);
    TrimFixed(entry);
  }

  lemma {:induction false} BodyTaken(d: Dialect, entries: seq<string>)
    requires (d.MySQL? || d.SQLite?) && AllSound(entries) && AllNeat(entries)
    ensures TakeEntries(d, SplitTop(Body(entries), 0, "")) == TakeEntries(d, entries)
  {
    if entries == [] {
      EmptyBodyTaken(d);
    } else {
      BodySplit(entries);
      forall i | 0 <= i < |entries| ensures TrimSpace(Pieces(entries)[i]) == TrimSpace(entries[i]) {
        PieceTrims(entries[i], if i == |entries| - 1 then "\n" else "");
      }
      TakeTrimmed(d, Pieces(entries), entries);
    }
  }

  lemma {:induction false} EmptyBodyTaken(d: Dialect)
    requires d.MySQL? || d.SQLite?
    ensures TakeEntries(d, SplitTop("\n" + "\n", 0, "")) == Taken([], [])
  {
    var text := "\n" + "\n";
    SoundPlain(0, text);
    SplitOfJoinPieces([text]);
    assert Join([text], ",") == text;
    TrimBlank(text);
    var none := Taken([], []);
    assert TakeEntry(d, none, text) == none;
    FoldStates(Taker(d), [text], [none, none]);
  }

  lemma {:induction false} BodyFound(sql: string, skip: nat, h: Header, close: nat, body: string)
    requires FindHeader(sql) == Some((skip, h)) && Stop(START, h.rest) == Some(close) && close > 0 &&
             h.rest[1..close] == body
    ensures BodyOf(sql) == Some((h.name, body))
  {
  }

  lemma {:induction false} BodyOfPrinted(d: Dialect, table: string, ifNotExists: bool, entries: seq<string>,
                                         engine: string)
    requires IsWord(table) && AllSound(entries)
    ensures BodyOf(Table(HeadText(d, table, ifNotExists), entries, engine)) == Some((table, Body(entries)))
  {
    var rest := FromParen(entries, engine);
    HeaderRead(d, table, ifNotExists, rest);
    TableIs(HeadText(d, table, ifNotExists), entries, engine);
    SoundIsCalm(entries);
    StopIs(entries, engine, "");
    assert rest + "" == rest;
    BodyFound(HeadText(d, table, ifNotExists) + rest, 0, Header(table, rest), 1 + |Body(entries)|, Body(entries));
  }

  /** Reading a statement is reading its entries. */
  lemma {:induction false} ParseOf(d: Dialect, table: string, ifNotExists: bool, entries: seq<string>, engine: string)
    requires (d.MySQL? || d.SQLite?) && IsWord(table) && AllSound(entries) && AllNeat(entries)
    ensures var all := TakeEntries(d, entries);
            ParseTable(d, Table(HeadText(d, table, ifNotExists), entries, engine)) ==
              Ok(ParsedTable(table, MarkKeys(all.columns, all.keys)))
  {
    BodyOfPrinted(d, table, ifNotExists, entries, engine);
    BodyTaken(d, entries);
  }

  lemma {:induction false} TableIs(head: string, entries: seq<string>, engine: string)
    ensures Table(head, entries, engine) == head + FromParen(entries, engine)
  {
    var body := Body(entries);
    assert head + "(" + body + ")" + engine + ";" == head + ("(" + body + (")" + engine + ";"));
  }
}
