/** The entries of a printed table: none of them disturbs the parenthesis scanner or the splitter. */
module SqlEntries {
  import opened Text
  import opened SqlScan
  import opened SqlLayout
  import opened SqlDdl
  import opened SqlTypes
  import opened SqlParse
  import opened SqlColumns
  import opened SqlModifiers
  import opened SqlColumnTrip

  // ---------------------------------------------------------------- calm and level texts

  function At(depth: nat): Scan {
    Scan(depth, Outside, false)
  }

  /** The scanner passes the text inside parentheses and comes out as it went in. */
  predicate Calm(depth: nat, text: string) {
    Quiet(At(depth), text) && Run(At(depth), text) == At(depth)
  }

  /** The splitter passes the text without a cut and comes out at the same depth. */
  predicate Level(depth: nat, text: string) {
    DepthAfter(depth, text) == depth && NoTopComma(depth, text)
  }

  predicate Sound(depth: nat, text: string) {
    Calm(depth + 1, text) && Level(depth, text)
  }

  lemma {:induction false} DepthConcat(depth: int, a: string, b: string)
    ensures DepthAfter(depth, a + b) == DepthAfter(DepthAfter(depth, a), b)
    ensures NoTopComma(depth, a + b) <==> NoTopComma(depth, a) && NoTopComma(DepthAfter(depth, a), b)
    decreases |a|
  {
    if a == "" {
      assert a + b == b;
    } else {
      AppendTail(a, b);
      DepthConcat(Depth(depth, a[0]), a[1..], b);
    }
  }

  lemma {:induction false} SoundConcat(depth: nat, a: string, b: string)
    requires Sound(depth, a) && Sound(depth, b)
    ensures Sound(depth, a + b)
  {
    RunConcat(At(depth + 1), a, b);
    QuietConcat(At(depth + 1), a, b);
    DepthConcat(depth, a, b);
  }

  predicate IsMark(c: char) {
    c == '(' || c == ')' || c == '\'' || c == '"'
  }

  /** A text without quotes and parentheses; commas are free below the top. */
  lemma {:induction false} SoundPlain(depth: nat, text: string)
    requires forall i :: 0 <= i < |text| ==> !IsMark(text[i]) && (depth == 0 ==> text[i] != ',')
    ensures Sound(depth, text)
  {
    if text != "" {
      assert !IsMark(text[0]);
      SoundPlain(depth, text[1..]);
    }
  }

  lemma {:induction false} RunOne(s: Scan, c: char)
    ensures Run(s, [c]) == Step(s, c) && (Quiet(s, [c]) <==> !Closes(s, c))
  {
    assert [c][1..] == "";
    assert Quiet(Step(s, c), "");
    assert Run(Step(s, c), "") == Step(s, c);
  }

  lemma {:induction false} DepthOne(depth: int, c: char)
    ensures DepthAfter(depth, [c]) == Depth(depth, c) && (NoTopComma(depth, [c]) <==> !(c == ',' && depth == 0))
  {
    assert [c][1..] == "";
    assert NoTopComma(Depth(depth, c), "");
  }

  /** Parentheses around a sound text. */
  lemma {:induction false} SoundParens(depth: nat, text: string)
    requires Sound(depth + 1, text)
    ensures Sound(depth, "(" + text + ")")
  {
    var s := At(depth + 1);
    RunOne(s, '(');
    RunOne(At(depth + 2), ')');
    RunConcat(s, "(", text);
    QuietConcat(s, "(", text);
    RunConcat(s, "(" + text, ")");
    QuietConcat(s, "(" + text, ")");
    DepthOne(depth, '(');
    DepthOne(depth + 1, ')');
    DepthConcat(depth, "(", text);
    DepthConcat(depth, "(" + text, ")");
  }

  lemma {:induction false} InsideQuotes(depth: nat, text: string)
    requires forall i :: 0 <= i < |text| ==> IsWordChar(text[i])
    ensures var s := Scan(depth, Inside('"'), false); Quiet(s, text) && Run(s, text) == s
  {
    if text != "" {
      assert IsWordChar(text[0]);
      InsideQuotes(depth, text[1..]);
    }
  }

  lemma {:induction false} LevelWord(depth: nat, text: string)
    requires forall i :: 0 <= i < |text| ==> text[i] != '(' && text[i] != ')' && text[i] != ','
    ensures Level(depth, text)
  {
    if text != "" {
      LevelWord(depth, text[1..]);
    }
  }

  lemma {:induction false} DoubleQuoted(depth: nat, name: string)
    requires IsWord(name)
    ensures Sound(depth, "\"" + name + "\"")
  {
    var s, inside := At(depth + 1), Scan(depth + 1, Inside('"'), false);
    InsideQuotes(depth + 1, name);
    RunOne(s, '"');
    RunOne(inside, '"');
    RunConcat(s, "\"", name);
    QuietConcat(s, "\"", name);
    RunConcat(s, "\"" + name, "\"");
    QuietConcat(s, "\"" + name, "\"");
    LevelWord(depth, "\"" + name + "\"");
  }

  lemma {:induction false} SoundQuote(d: Dialect, depth: nat, name: string)
    requires (d.MySQL? || d.SQLite?) && IsWord(name)
    ensures Sound(depth, Quote(d, name))
  {
    if d.MySQL? {
      SoundPlain(depth, Quote(d, name));
    } else {
      DoubleQuoted(depth, name);
    }
  }

  lemma {:induction false} SoundJoin(depth: nat, parts: seq<string>, sep: string)
    requires Sound(depth, sep) && forall i :: 0 <= i < |parts| ==> Sound(depth, parts[i])
    ensures Sound(depth, Join(parts, sep))
  {
    if |parts| == 1 {
    } else if |parts| > 1 {
      SoundJoin(depth, parts[1..], sep);
      SoundConcat(depth, parts[0], sep);
      SoundConcat(depth, parts[0] + sep, Join(parts[1..], sep));
    } else {
      SoundPlain(depth, "");
    }
  }

  // ---------------------------------------------------------------- entries

  predicate PlainText(s: string) {
    forall i :: 0 <= i < |s| ==> !IsMark(s[i]) && s[i] != ','
  }

  lemma {:induction false} PlainConcats(u: string, k: string, n: string, t: string)
    requires PlainText(u) && PlainText(k) && PlainText(n) && PlainText(t)
    ensures PlainText(u + k + n + t)
  {
  }

  lemma {:induction false} PlainUnsigned(b: bool)
    ensures PlainText(UnsignedText(b))
  {
  }

  lemma {:induction false} PlainNotNull(b: bool)
    ensures PlainText(NotNullText(b))
  {
  }

  lemma {:induction false} PlainKey(b: bool)
    ensures PlainText(KeyText(b))
  {
  }

  lemma {:induction false} PlainAuto(d: Dialect, b: bool)
    requires d.MySQL? || d.SQLite?
    ensures PlainText(AutoText(d, b))
  {
  }

  lemma {:induction false} SoundTail(d: Dialect, m: Mods)
    requires d.MySQL? || d.SQLite?
    ensures Sound(0, Tail(d, m))
  {
    PlainUnsigned(m.unsigned);
    PlainKey(m.key);
    PlainNotNull(m.notNull);
    PlainAuto(d, m.auto);
    PlainConcats(UnsignedText(m.unsigned), KeyText(m.key), NotNullText(m.notNull), AutoText(d, m.auto));
    SoundPlain(0, Tail(d, m));
  }

  lemma {:induction false} SoundFirstWord(s: Shape)
    requires IsBase(s.base)
    ensures Sound(0, FirstWord(s))
  {
    SoundPlain(0, s.base);
    if s.param.Some? {
      var digits := Digits(s.param.value);
      assert AllDigits(digits);
      SoundPlain(1, digits);
      SoundParens(0, digits);
    } else {
      SoundPlain(0, "");
    }
    SoundConcat(0, s.base, ParamText(s.param));
  }

  /** What the round trip asks of a column: a word for a name, no default, no comment, and the type text of
      its Go type; its index names, if any, are words. */
  predicate Fit(d: Dialect, c: Column, ty: GoType, size: int)
    requires d.MySQL? || d.SQLite?
  {
    && IsWord(c.name) && c.default == "" && c.comment == ""
    && c.sqlType == TypeText(d, ty, size)
    && (c.index == "" || IsWord(c.index)) && (c.uniqueIndex == "" || IsWord(c.uniqueIndex))
  }

  lemma {:induction false} SoundColumn(d: Dialect, c: Column, ty: GoType, size: int)
    requires (d.MySQL? || d.SQLite?) && Fit(d, c, ty, size)
    ensures Sound(0, ColumnDef(d, c))
  {
    var s := ShapeOf(d, ty, size);
    var m := ModsOf(d, s.unsigned, c);
    TypeTextIsShape(d, ty, size);
    BasesAreFit(d, ty, size);
    DefIs(d, c, s);
    SoundTail(d, m);
    SoundFirstWord(s);
    SoundConcat(0, FirstWord(s), Tail(d, m));
    SoundQuote(d, 0, c.name);
    SoundPlain(0, " ");
    SoundConcat(0, Quote(d, c.name), " ");
    SoundConcat(0, Quote(d, c.name) + " ", FirstWord(s) + Tail(d, m));
  }

  predicate Words(names: seq<string>) {
    forall i :: 0 <= i < |names| ==> IsWord(names[i])
  }

  lemma {:induction false} SoundNames(d: Dialect, names: seq<string>)
    requires (d.MySQL? || d.SQLite?) && Words(names)
    ensures Sound(0, "(" + Join(QuoteAll(d, names), ", ") + ")")
  {
    forall i | 0 <= i < |names| ensures Sound(1, QuoteAll(d, names)[i]) {
      SoundQuote(d, 1, names[i]);
    }
    SoundPlain(1, ", ");
    SoundJoin(1, QuoteAll(d, names), ", ");
    SoundParens(0, Join(QuoteAll(d, names), ", "));
  }

  lemma {:induction false} SoundKeyClause(d: Dialect, names: seq<string>)
    requires (d.MySQL? || d.SQLite?) && Words(names)
    ensures Sound(0, KeyClause(QuoteAll(d, names)))
  {
    SoundNames(d, names);
    SoundPlain(0, "PRIMARY KEY ");
    KeyClauseIs(QuoteAll(d, names));
    SoundConcat(0, "PRIMARY KEY ", "(" + Join(QuoteAll(d, names), ", ") + ")");
  }

  lemma {:induction false} KeyClauseIs(quoted: seq<string>)
    ensures KeyClause(quoted) == "PRIMARY KEY " + ("(" + Join(quoted, ", ") + ")")
  {
    assert "PRIMARY KEY (" == "PRIMARY KEY " + "(";
    Regroup4("PRIMARY KEY ", "(", Join(quoted, ", "), ")");
  }

  lemma {:induction false} Regroup4(a: string, b: string, c: string, e: string)
    ensures (a + b) + c + e == a + (b + c + e)
  {
  }

  predicate SpecFit(spec: IndexSpec) {
    IsWord(spec.name) && Words(spec.columns)
  }

  function IndexHead(d: Dialect, spec: IndexSpec): string {
    (if spec.unique then "UNIQUE INDEX" else "INDEX") + " " + Quote(d, spec.name) + " "
  }

  lemma {:induction false} IndexTextIs(d: Dialect, spec: IndexSpec)
    ensures IndexText(d, spec) == IndexHead(d, spec) + ("(" + Join(QuoteAll(d, spec.columns), ", ") + ")")
  {
    var h := (if spec.unique then "UNIQUE INDEX" else "INDEX") + " " + Quote(d, spec.name);
    assert " (" == " " + "(";
    assert h + (" " + "(") == (h + " ") + "(";
    Regroup4(h + " ", "(", Join(QuoteAll(d, spec.columns), ", "), ")");
  }

  lemma {:induction false} SoundIndex(d: Dialect, spec: IndexSpec)
    requires (d.MySQL? || d.SQLite?) && SpecFit(spec)
    ensures Sound(0, IndexText(d, spec))
  {
    var kind := if spec.unique then "UNIQUE INDEX" else "INDEX";
    SoundPlain(0, kind);
    SoundPlain(0, " ");
    SoundQuote(d, 0, spec.name);
    SoundConcat(0, kind, " ");
    SoundConcat(0, kind + " ", Quote(d, spec.name));
    SoundConcat(0, kind + " " + Quote(d, spec.name), " ");
    SoundNames(d, spec.columns);
    IndexTextIs(d, spec);
    SoundConcat(0, IndexHead(d, spec), "(" + Join(QuoteAll(d, spec.columns), ", ") + ")");
  }
}
