/** Placeholders in SQL templates: question marks in order, and numbered dollar placeholders one after the other. */
module SqlInterpolate {
  import opened Text
  import opened SqlScan

  /** The argument kinds that formatValue tells apart. A floating-point number and a value of any other kind come
      with the text that Go prints for them. */
  datatype Value =
    | Nil
    | Str(text: string)
    | Flag(on: bool)
    | Number(n: int)
    | Float(shown: string)
    | Bytes(octets: seq<nat>)
    | Other(shown: string)

  function HexDigit(n: nat): (c: char)
    ensures IsDigit(c) || 'a' <= c <= 'f'
  {
    if n % 16 < 10 then DigitChar(n % 16) else ((n % 16) - 10 + 'a' as int) as char
  }

  function Hex(octets: seq<nat>): string {
    if octets == [] then "" else [HexDigit(octets[0] / 16), HexDigit(octets[0])] + Hex(octets[1..])
  }

  function FormatValue(v: Value): string {
    match v
    case Nil => "NULL"
    case Str(text) => "'" + EscapeString(text) + "'"
    case Flag(on) => if on then "1" else "0"
    case Number(n) => FormatInt(n)
    case Float(shown) => shown
    case Bytes(octets) => "X'" + Hex(octets) + "'"
    case Other(shown) => "'" + shown + "'"
  }

  function FormatValues(args: seq<Value>): (r: seq<string>)
    ensures |r| == |args| && forall i :: 0 <= i < |args| ==> r[i] == FormatValue(args[i])
  {
    seq(|args|, i requires 0 <= i < |args| => FormatValue(args[i]))
  }

  // ---------------------------------------------------------------- literals are read back

  /** The value of a hexadecimal digit. */
  function HexValue(c: char): Option<nat> {
    if '0' <= c <= '9' then Some(c as nat - '0' as nat)
    else if 'a' <= c <= 'f' then Some(c as nat - 'a' as nat + 10)
    else if 'A' <= c <= 'F' then Some(c as nat - 'A' as nat + 10)
    else None
  }

  /** Bytes from pairs of hexadecimal digits. */
  function ReadHex(s: string): Option<seq<nat>> {
    if s == "" then Some([])
    else if |s| == 1 then None
    else
      match (HexValue(s[0]), HexValue(s[1]), ReadHex(s[2..]))
      case (Some(high), Some(low), Some(rest)) => Some([16 * high + low] + rest)
      case _ => None
  }

  /** What a literal of the dialects means: NULL, bytes in hexadecimal, a string with its special characters doubled, or
      a number. */
  function ReadLiteral(text: string): Option<Value> {
    if text == "NULL" then Some(Nil)
    else if |text| >= 3 && text[0] == 'X' && text[1] == '\'' && text[|text| - 1] == '\'' then
      match ReadHex(text[2..|text| - 1])
      case None => None
      case Some(octets) => Some(Bytes(octets))
    else if |text| >= 2 && text[0] == '\'' && text[|text| - 1] == '\'' then Some(Str(Halved(text[1..|text| - 1])))
    else
      match ParseDecimal(text)
      case None => None
      case Some(n) => Some(Number(n))
  }

  lemma {:induction false} HexDigitReads(n: nat)
    ensures HexValue(HexDigit(n)) == Some(n % 16)
  {
  }

  lemma {:induction false} HexPairReads(n: nat, rest: string, octets: seq<nat>)
    requires n < 256 && ReadHex(rest) == Some(octets)
    ensures ReadHex([HexDigit(n / 16), HexDigit(n)] + rest) == Some([n] + octets)
  {
    var text := [HexDigit(n / 16), HexDigit(n)] + rest;
    HexDigitReads(n / 16);
    HexDigitReads(n);
    assert text[2..] == rest && 16 * (n / 16) + n % 16 == n;
  }

  lemma {:induction false} HexReads(octets: seq<nat>)
    requires forall i :: 0 <= i < |octets| ==> octets[i] < 256
    ensures ReadHex(Hex(octets)) == Some(octets)
  {
    if octets != [] {
      HexReads(octets[1..]);
      HexPairReads(octets[0], Hex(octets[1..]), octets[1..]);
      assert [octets[0]] + octets[1..] == octets;
    }
  }

  lemma {:induction false} DigitsAreNumber(text: string)
    requires text != "" && (text[0] == '-' || IsDigit(text[0]))
    ensures ReadLiteral(text) == match ParseDecimal(text) case None => None case Some(n) => Some(Number(n))
  {
    assert "NULL"[0] == 'N';
  }

  lemma {:induction false} FirstOfNumber(n: int)
    ensures FormatInt(n)[0] == '-' || IsDigit(FormatInt(n)[0])
  {
    var digits := Digits(if n < 0 then -n else n);
    assert IsDigit(digits[0]);
  }

  lemma {:induction false} NumberReads(n: int)
    ensures ReadLiteral(FormatValue(Number(n))) == Some(Number(n))
  {
    ParseFormatted(n, 64);
    FirstOfNumber(n);
    DigitsAreNumber(FormatInt(n));
  }

  /** What the formatter prints is read as the value that it was given: nothing, a string whatever it holds, a number,
      bytes; a flag as one or zero. A value of another kind is read as its text with doubled characters halved, so as
      itself exactly if it has none. A floating-point number stands as Go prints it. */
  lemma {:induction false} ValueReadsBack(v: Value)
    ensures v.Nil? || v.Str? || v.Number? ==> ReadLiteral(FormatValue(v)) == Some(v)
    ensures v.Bytes? && (forall i :: 0 <= i < |v.octets| ==> v.octets[i] < 256) ==>
              ReadLiteral(FormatValue(v)) == Some(v)
    ensures v.Flag? ==> ReadLiteral(FormatValue(v)) == Some(Number(if v.on then 1 else 0))
    ensures v.Other? ==> ReadLiteral(FormatValue(v)) == Some(Str(Halved(v.shown)))
    ensures v.Float? ==> FormatValue(v) == v.shown
  {
    match v
    case Nil =>
    case Str(text) =>
      UnescapeEscaped(text);
      assert FormatValue(v)[1..|FormatValue(v)| - 1] == EscapeString(text);
    case Flag(on) =>
      var one, zero := "1", "0";
      assert one[..0] == "" && zero[..0] == "" && DigitsValue("") == 0;
    case Number(n) => NumberReads(n);
    case Bytes(octets) =>
      assert FormatValue(v)[2..|FormatValue(v)| - 1] == Hex(octets);
      if forall i :: 0 <= i < |octets| ==> octets[i] < 256 {
        HexReads(octets);
      }
    case Other(shown) => assert FormatValue(v)[1..|FormatValue(v)| - 1] == shown;
    case Float(_) =>
  }

  // ---------------------------------------------------------------- question marks

  /** The parts of a template with the values between them; where the values run out the marks stay. */
  function Weave(parts: seq<string>, values: seq<string>): string
    requires parts != []
  {
    if |parts| == 1 then parts[0]
    else if values == [] then parts[0] + "?" + Weave(parts[1..], [])
    else parts[0] + values[0] + Weave(parts[1..], values[1..])
  }

  lemma {:induction false} WeaveCons(c: char, parts: seq<string>, values: seq<string>)
    requires parts != []
    ensures Weave([[c] + parts[0]] + parts[1..], values) == [c] + Weave(parts, values)
  {
    var longer := [[c] + parts[0]] + parts[1..];
    if |parts| > 1 {
      assert longer[1..] == parts[1..];
      var v := if values == [] then "?" else values[0];
      var rest := Weave(parts[1..], if values == [] then [] else values[1..]);
      assert ([c] + parts[0]) + v + rest == [c] + (parts[0] + v + rest);
    }
  }

  /** The first mark of a template takes the first value, and the marks behind it take the others; without a value it
      stays, and so does a text without marks. */
  lemma {:induction false} FirstMarkTakesFirstValue(front: string, rest: string, values: seq<string>)
    requires '?' !in front
    ensures Weave(Split(front + "?" + rest, '?'), values) ==
            if values == [] then front + "?" + Weave(Split(rest, '?'), [])
            else front + values[0] + Weave(Split(rest, '?'), values[1..])
    ensures Weave(Split(front, '?'), values) == front
  {
    SplitCons(front, rest, '?');
    SplitNone(front, '?');
    assert ([front] + Split(rest, '?'))[1..] == Split(rest, '?');
  }

  /** One character of the template. */
  lemma {:induction false} WeaveStep(sql: string, values: seq<string>)
    requires sql != ""
    ensures Weave(Split(sql, '?'), values) ==
            if sql[0] == '?' then
              (if values == [] then "?" + Weave(Split(sql[1..], '?'), [])
               else values[0] + Weave(Split(sql[1..], '?'), values[1..]))
            else [sql[0]] + Weave(Split(sql[1..], '?'), values)
  {
    var rest := Split(sql[1..], '?');
    if sql[0] == '?' {
      assert Split(sql, '?')[1..] == rest;
      assert "" + "?" == "?";
      assert values != [] ==> "" + values[0] == values[0];
    } else {
      WeaveCons(sql[0], rest, values);
    }
  }

  /** interpolateSQL: one pass with an argument index. */
  method InterpolateSql(sql: string, args: seq<Value>) returns (result: string)
    ensures result == Weave(Split(sql, '?'), FormatValues(args))
  {
    if |args| == 0 {
      NoValues(sql);
      assert FormatValues(args) == [];
      return sql;
    }
    result := "";
    var argIndex := 0;
    ghost var values := FormatValues(args);
    assert values[0..] == values && sql[0..] == sql;
    for i := 0 to |sql|
      invariant 0 <= argIndex <= |args|
      invariant Weave(Split(sql, '?'), values) == result + Weave(Split(sql[i..], '?'), values[argIndex..])
    {
      assert sql[i..][0] == sql[i] && sql[i..][1..] == sql[i + 1..];
      WeaveStep(sql[i..], values[argIndex..]);
      if sql[i] == '?' && argIndex < |args| {
        assert values[argIndex..][0] == values[argIndex] && values[argIndex..][1..] == values[argIndex + 1..];
        Regroup(result, values[argIndex], Weave(Split(sql[i + 1..], '?'), values[argIndex + 1..]));
        result := result + FormatValue(args[argIndex]);
        argIndex := argIndex + 1;
      } else {
        Regroup(result, [sql[i]], Weave(Split(sql[i + 1..], '?'), values[argIndex..]));
        result := result + [sql[i]];
      }
    }
    assert sql[|sql|..] == "";
    assert result + "" == result;
  }

  lemma {:induction false} NoValues(sql: string)
    ensures Weave(Split(sql, '?'), []) == sql
  {
    if sql != "" {
      WeaveStep(sql, []);
      NoValues(sql[1..]);
      assert sql == [sql[0]] + sql[1..];
    }
  }

  function Count(s: string, c: char): nat {
    if s == "" then 0 else (if s[0] == c then 1 else 0) + Count(s[1..], c)
  }

  function CountAll(values: seq<string>, c: char): nat {
    if values == [] then 0 else Count(values[0], c) + CountAll(values[1..], c)
  }

  function Min(a: nat, b: nat): nat {
    if a < b then a else b
  }

  lemma {:induction false} CountConcat(a: string, b: string, c: char)
    ensures Count(a + b, c) == Count(a, c) + Count(b, c)
    decreases |a|
  {
    if a == "" {
      assert a + b == b;
    } else {
      AppendTail(a, b);
      CountConcat(a[1..], b, c);
    }
  }

  /** Exactly as many marks are replaced as there are marks and values for them; the only other question marks
      of the result are those that stand inside the values used. */
  lemma {:induction false} MarksAccounted(sql: string, values: seq<string>)
    ensures var used := Min(Count(sql, '?'), |values|);
            Count(Weave(Split(sql, '?'), values), '?') == Count(sql, '?') - used + CountAll(values[..used], '?')
  {
    if sql != "" {
      WeaveStep(sql, values);
      if sql[0] == '?' && values != [] {
        MarksAccounted(sql[1..], values[1..]);
        CountConcat(values[0], Weave(Split(sql[1..], '?'), values[1..]), '?');
        var used := Min(Count(sql, '?'), |values|);
        assert values[..used][1..] == values[1..][..used - 1];
      } else {
        MarksAccounted(sql[1..], values);
        CountConcat([sql[0]], Weave(Split(sql[1..], '?'), values), '?');
        assert sql[0] == '?' ==> values == [];
        assert [sql[0]][1..] == "";
      }
    }
  }

  // ---------------------------------------------------------------- quoting survives

  /** Every question mark that a value goes to stands outside quotes. */
  predicate MarksOutside(s: Scan, sql: string)
    decreases |sql|
  {
    sql == "" || ((sql[0] == '?' ==> s.quote.Outside?) && MarksOutside(Step(s, sql[0]), sql[1..]))
  }

  /** A text that the scanner passes from outside quotes back to the state it came in. */
  ghost predicate Transparent(text: string) {
    forall depth :: Run(Scan(depth, Outside, false), text) == Scan(depth, Outside, false)
  }

  predicate NotEscaping(s: Scan) {
    s.quote.Outside? ==> !s.escaped
  }

  /** Transparent values do not disturb the template: the scanner ends in the state that the bare template
      would leave it in. */
  lemma {:induction false} InterpolationKeepsQuoting(s: Scan, sql: string, values: seq<string>)
    requires NotEscaping(s) && MarksOutside(s, sql) && forall i :: 0 <= i < |values| ==> Transparent(values[i])
    ensures Run(s, Weave(Split(sql, '?'), values)) == Run(s, sql)
    decreases |sql|
  {
    if sql != "" {
      WeaveStep(sql, values);
      var next := Step(s, sql[0]);
      if sql[0] == '?' && values != [] {
        RunConcat(s, values[0], Weave(Split(sql[1..], '?'), values[1..]));
        assert Transparent(values[0]);
        InterpolationKeepsQuoting(next, sql[1..], values[1..]);
      } else {
        RunConcat(s, [sql[0]], Weave(Split(sql[1..], '?'), values));
        assert [sql[0]][1..] == "" && Run(next, "") == next;
        InterpolationKeepsQuoting(next, sql[1..], values);
      }
    }
  }

  lemma {:induction false} HarmlessIsTransparent(text: string)
    requires forall i :: 0 <= i < |text| ==> text[i] !in {'\'', '"', '(', ')'}
    ensures Transparent(text)
  {
    if text != "" {
      HarmlessIsTransparent(text[1..]);
      forall depth ensures Run(Scan(depth, Outside, false), text) == Scan(depth, Outside, false) {
        assert text[0] !in {'\'', '"', '(', ')'};
        assert Step(Scan(depth, Outside, false), text[0]) == Scan(depth, Outside, false);
      }
    }
  }

  /** Every string argument is transparent, whatever it holds. */
  lemma {:induction false} StringIsTransparent(text: string)
    ensures Transparent(FormatValue(Str(text)))
  {
    forall depth ensures Run(Scan(depth, Outside, false), FormatValue(Str(text))) == Scan(depth, Outside, false) {
      LiteralIsTransparent(text, depth);
    }
  }

  lemma {:induction false} HexInside(octets: seq<nat>, depth: int)
    ensures Run(Scan(depth, Inside('\''), false), Hex(octets)) == Scan(depth, Inside('\''), false)
  {
    if octets != [] {
      var inside := Scan(depth, Inside('\''), false);
      var pair := [HexDigit(octets[0] / 16), HexDigit(octets[0])];
      assert Step(inside, pair[0]) == inside && Step(inside, pair[1]) == inside;
      assert pair[1..] == [HexDigit(octets[0])] && pair[1..][1..] == "";
      assert Run(inside, pair[1..]) == Run(inside, "") == inside;
      RunConcat(inside, pair, Hex(octets[1..]));
      HexInside(octets[1..], depth);
    }
  }

  lemma {:induction false} BytesAreTransparent(octets: seq<nat>)
    ensures Transparent(FormatValue(Bytes(octets)))
  {
    forall depth ensures Run(Scan(depth, Outside, false), FormatValue(Bytes(octets))) == Scan(depth, Outside, false) {
      var outside := Scan(depth, Outside, false);
      assert "X'"[1..] == "'" && "'"[1..] == "";
      assert Run(outside, "X'") == Scan(depth, Inside('\''), false);
      RunConcat(outside, "X'", Hex(octets));
      HexInside(octets, depth);
      RunConcat(outside, "X'" + Hex(octets), "'");
    }
  }

  lemma {:induction false} NumberIsTransparent(n: int)
    ensures Transparent(FormatValue(Number(n)))
  {
    var digits := Digits(if n < 0 then -n else n);
    assert AllDigits(digits);
    HarmlessIsTransparent(FormatInt(n));
  }

  /** The characters in which Go prints a floating-point number. */
  predicate IsFloatText(shown: string) {
    forall i :: 0 <= i < |shown| ==> IsDigit(shown[i]) || shown[i] in {'+', '-', '.', 'e', 'N', 'a', 'I', 'n', 'f'}
  }

  /** Every kind but the last: the formatter, or the printing of numbers, decides what the text is made of. */
  predicate IsOwnFormat(v: Value) {
    !v.Other? && (v.Float? ==> IsFloatText(v.shown))
  }

  lemma {:induction false} OwnFormatIsTransparent(v: Value)
    requires IsOwnFormat(v)
    ensures Transparent(FormatValue(v))
  {
    match v
    case Nil => HarmlessIsTransparent("NULL");
    case Str(text) => StringIsTransparent(text);
    case Flag(on) => HarmlessIsTransparent(FormatValue(v));
    case Number(n) => NumberIsTransparent(n);
    case Float(shown) => HarmlessIsTransparent(shown);
    case Bytes(octets) => BytesAreTransparent(octets);
  }

  /** A template whose marks stand outside quotes keeps its quoting and nesting, whatever strings, numbers,
      flags and bytes are put in. */
  lemma {:induction false} InterpolatedScansLikeTemplate(sql: string, args: seq<Value>)
    requires MarksOutside(START, sql) && forall i :: 0 <= i < |args| ==> IsOwnFormat(args[i])
    ensures Run(START, Weave(Split(sql, '?'), FormatValues(args))) == Run(START, sql)
  {
    forall i | 0 <= i < |args| ensures Transparent(FormatValues(args)[i]) {
      OwnFormatIsTransparent(args[i]);
    }
    InterpolationKeepsQuoting(START, sql, FormatValues(args));
  }

  // ---------------------------------------------------------------- values that are quoted but not escaped

  function Deeper(s: Scan, levels: int): Scan {
    s.(depth := s.depth + levels)
  }

  /** The scanner does the same at every depth. */
  lemma {:induction false} RunDeeper(s: Scan, text: string, levels: int)
    ensures Run(Deeper(s, levels), text) == Deeper(Run(s, text), levels)
    decreases |text|
  {
    if text != "" {
      assert Step(Deeper(s, levels), text[0]) == Deeper(Step(s, text[0]), levels);
      RunDeeper(Step(s, text[0]), text[1..], levels);
    }
  }

  const INSIDE := Scan(0, Inside('\''), false)

  /** The quote that the formatter puts at the end closes the one that it put in front. */
  predicate EndsQuote(text: string) {
    Run(INSIDE, text + "'") == Scan(0, Outside, false)
  }

  lemma {:induction false} OtherRun(text: string, depth: int)
    ensures Run(Scan(depth, Outside, false), FormatValue(Other(text))) == Deeper(Run(INSIDE, text + "'"), depth)
  {
    var outside := Scan(depth, Outside, false);
    assert "'"[1..] == "" && Step(outside, '\'') == Deeper(INSIDE, depth);
    assert Run(outside, "'") == Deeper(INSIDE, depth);
    Regroup("'", text, "'");
    RunConcat(outside, "'", text + "'");
    RunDeeper(INSIDE, text + "'", depth);
  }

  /** A value of any other kind is quoted but not escaped. It is transparent exactly if the closing quote ends the
      literal at the depth at which it began. */
  lemma {:induction false} OtherIsTransparentExactly(text: string)
    ensures Transparent(FormatValue(Other(text))) <==> EndsQuote(text)
  {
    forall depth
      ensures Run(Scan(depth, Outside, false), FormatValue(Other(text))) == Scan(depth, Outside, false) <==>
              EndsQuote(text)
    {
      OtherRun(text, depth);
    }
    assert Transparent(FormatValue(Other(text))) ==>
             Run(Scan(0, Outside, false), FormatValue(Other(text))) == Scan(0, Outside, false);
  }

  /** The scanner between quotes, or inside one. */
  function Quoting(inside: bool): Scan {
    if inside then INSIDE else Scan(0, Outside, false)
  }

  /** Over a text without backslashes, double quotes and parentheses every quote turns the scanner over. */
  lemma {:induction false} QuotesTurn(text: string, inside: bool)
    requires forall i :: 0 <= i < |text| ==> text[i] !in {'\\', '"', '(', ')'}
    ensures Run(Quoting(inside), text) == Quoting(inside == (Count(text, '\'') % 2 == 0))
    decreases |text|
  {
    if text != "" {
      assert text[0] !in {'\\', '"', '(', ')'};
      var next := if text[0] == '\'' then !inside else inside;
      assert Step(Quoting(inside), text[0]) == Quoting(next);
      QuotesTurn(text[1..], next);
    }
  }

  /** For such texts: exactly if the number of quotes is even. One quote in the text lets it run on. */
  lemma {:induction false} OtherIsTransparentIfQuotesPair(text: string)
    requires forall i :: 0 <= i < |text| ==> text[i] !in {'\\', '"', '(', ')'}
    ensures Transparent(FormatValue(Other(text))) <==> Count(text, '\'') % 2 == 0
  {
    OtherIsTransparentExactly(text);
    QuotesTurn(text + "'", true);
    CountConcat(text, "'", '\'');
    assert "'"[1..] == "" && Count("'", '\'') == 1;
  }

  // ---------------------------------------------------------------- numbered placeholders

  /** strings.Replace of the first occurrence. */
  function ReplaceFirst(s: string, pattern: string, with: string): string
    requires pattern != ""
  {
    if pattern <= s then with + s[|pattern|..]
    else if s == "" then ""
    else [s[0]] + ReplaceFirst(s[1..], pattern, with)
  }

  function Placeholder(n: nat): string {
    "$" + Digits(n)
  }

  /** What the loop of interpolateSQLPositional has after the first values. */
  function OneByOne(sql: string, values: seq<string>): string {
    if values == [] then sql
    else ReplaceFirst(OneByOne(sql, values[..|values| - 1]), Placeholder(|values|), values[|values| - 1])
  }

  /** interpolateSQLPositional: the placeholders are replaced one after the other, in the text made so far. */
  method InterpolateSqlPositional(sql: string, args: seq<Value>) returns (result: string)
    ensures result == OneByOne(sql, FormatValues(args))
  {
    if |args| == 0 {
      return sql;
    }
    result := sql;
    ghost var values := FormatValues(args);
    for i := 0 to |args|
      invariant result == OneByOne(sql, values[..i])
    {
      assert values[..i + 1][..i] == values[..i];
      result := ReplaceFirst(result, Placeholder(i + 1), FormatValue(args[i]));
    }
    assert values[..|args|] == values;
  }

  function DigitRun(s: string): (n: nat)
    ensures n <= |s| && AllDigits(s[..n]) && (n < |s| ==> !IsDigit(s[n]))
  {
    if s == "" || !IsDigit(s[0]) then 0
    else
      var n := DigitRun(s[1..]) + 1;
      assert s[..n] == [s[0]] + s[1..][..n - 1];
      n
  }

  /** All placeholders at once: a dollar sign with all the digits after it names a value, and the first
      placeholder of each number is replaced. */
  function AllAtOnce(sql: string, values: seq<string>, seen: set<nat>): string {
    if sql == "" then ""
    else
      var n := DigitRun(sql[1..]);
      if sql[0] == '$' && n > 0 then
        var number := DigitsValue(sql[1..][..n]);
        (if 1 <= number <= |values| && number !in seen then values[number - 1] else sql[..n + 1]) +
        AllAtOnce(sql[n + 1..], values, seen + {number})
      else [sql[0]] + AllAtOnce(sql[1..], values, seen)
  }

  /** Every dollar sign is followed by exactly one digit. */
  predicate OneDigitEach(sql: string) {
    sql == "" || ((sql[0] == '$' ==> DigitRun(sql[1..]) == 1) && OneDigitEach(sql[1..]))
  }

  lemma {:induction false} OneDigit(sql: string)
    requires sql != "" && sql[0] == '$' && OneDigitEach(sql)
    ensures |sql| >= 2 && IsDigit(sql[1]) && DigitRun(sql[1..]) == 1 && OneDigitEach(sql[2..])
    ensures DigitsValue(sql[1..][..1]) == sql[1] as int - 48
  {
    assert sql[1..][1..] == sql[2..];
    assert sql[1..][..1] == [sql[1]] && [sql[1]][..0] == "";
  }

  /** One step of the simultaneous substitution, for such templates. */
  lemma {:induction false} AllAtOnceDollar(sql: string, values: seq<string>, seen: set<nat>)
    requires sql != "" && sql[0] == '$' && OneDigitEach(sql)
    ensures |sql| >= 2 && IsDigit(sql[1])
    ensures var d := sql[1] as int - 48;
            AllAtOnce(sql, values, seen) ==
            (if 1 <= d <= |values| && d !in seen then values[d - 1] else sql[..2]) +
              AllAtOnce(sql[2..], values, seen + {d})
  {
    OneDigit(sql);
  }

  lemma {:induction false} NothingAtOnce(sql: string, seen: set<nat>)
    requires OneDigitEach(sql)
    ensures AllAtOnce(sql, [], seen) == sql
    decreases |sql|
  {
    if sql == "" {
    } else if sql[0] == '$' {
      OneDigit(sql);
      AllAtOnceDollar(sql, [], seen);
      NothingAtOnce(sql[2..], seen + {sql[1] as int - 48});
      assert sql == sql[..2] + sql[2..];
    } else {
      NothingAtOnce(sql[1..], seen);
      assert sql == [sql[0]] + sql[1..];
    }
  }

  /** A value whose number was seen is not used any more. */
  lemma {:induction false} SeenIsIdle(sql: string, init: seq<string>, last: string, seen: set<nat>)
    requires OneDigitEach(sql) && |init| + 1 in seen
    ensures AllAtOnce(sql, init + [last], seen) == AllAtOnce(sql, init, seen)
    decreases |sql|
  {
    if sql == "" {
    } else if sql[0] == '$' {
      OneDigit(sql);
      AllAtOnceDollar(sql, init, seen);
      AllAtOnceDollar(sql, init + [last], seen);
      SeenIsIdle(sql[2..], init, last, seen + {sql[1] as int - 48});
    } else {
      SeenIsIdle(sql[1..], init, last, seen);
    }
  }

  lemma {:induction false} ReplaceAfter(chunk: string, rest: string, pattern: string, with: string)
    requires pattern != "" && pattern[0] !in chunk
    ensures ReplaceFirst(chunk + rest, pattern, with) == chunk + ReplaceFirst(rest, pattern, with)
    decreases |chunk|
  {
    if chunk == "" {
      assert chunk + rest == rest;
    } else {
      AppendTail(chunk, rest);
      ReplaceAfter(chunk[1..], rest, pattern, with);
    }
  }

  lemma {:induction false} ReplaceOther(d: char, rest: string, n: nat, with: string)
    requires 1 <= n <= 9 && IsDigit(d) && d as int - 48 != n
    ensures ReplaceFirst(['$', d] + rest, Placeholder(n), with) == ['$', d] + ReplaceFirst(rest, Placeholder(n), with)
  {
    var p := Placeholder(n);
    assert p == ['$', DigitChar(n)];
    var s := ['$', d] + rest;
    assert s[1] != p[1];
    assert s[1..] == [d] + rest;
    ReplaceAfter([d], rest, p, with);
  }

  lemma {:induction false} ReplaceHere(n: nat, rest: string, with: string)
    ensures ReplaceFirst(Placeholder(n) + rest, Placeholder(n), with) == with + rest
  {
    var p := Placeholder(n);
    assert (p + rest)[|p|..] == rest;
  }

  /** One more value: replacing its placeholder afterwards is substituting it with the others. */
  lemma {:induction false} OneMoreValue(sql: string, init: seq<string>, last: string, seen: set<nat>)
    requires OneDigitEach(sql) && |init| < 9 && |init| + 1 !in seen && forall i :: 0 <= i < |init| ==> '$' !in init[i]
    ensures ReplaceFirst(AllAtOnce(sql, init, seen), Placeholder(|init| + 1), last) ==
            AllAtOnce(sql, init + [last], seen)
    decreases |sql|
  {
    var n := |init| + 1;
    assert Placeholder(n)[0] == '$';
    if sql == "" {
    } else if sql[0] != '$' {
      OneMoreValue(sql[1..], init, last, seen);
      ReplaceAfter([sql[0]], AllAtOnce(sql[1..], init, seen), Placeholder(n), last);
    } else {
      OneDigit(sql);
      AllAtOnceDollar(sql, init, seen);
      AllAtOnceDollar(sql, init + [last], seen);
      OneMoreDollar(sql, init, last, seen);
    }
  }

  lemma {:induction false} OneMoreDollar(sql: string, init: seq<string>, last: string, seen: set<nat>)
    requires sql != "" && sql[0] == '$' && |sql| >= 2 && IsDigit(sql[1]) && OneDigitEach(sql) && OneDigitEach(sql[2..])
    requires |init| < 9 && |init| + 1 !in seen && forall i :: 0 <= i < |init| ==> '$' !in init[i]
    ensures var d := sql[1] as int - 48;
            var n := |init| + 1;
            ReplaceFirst((if 1 <= d <= |init| && d !in seen then init[d - 1] else sql[..2]) +
                         AllAtOnce(sql[2..], init, seen + {d}), Placeholder(n), last) ==
            (if 1 <= d <= n && d !in seen then (init + [last])[d - 1] else sql[..2]) +
              AllAtOnce(sql[2..], init + [last], seen + {d})
    decreases |sql|, 0
  {
    var n, d := |init| + 1, sql[1] as int - 48;
    var rest := AllAtOnce(sql[2..], init, seen + {d});
    assert sql[..2] == ['$', sql[1]];
    if d == n {
      assert Placeholder(n) == ['$', DigitChar(n)] == sql[..2];
      ReplaceHere(n, rest, last);
      SeenIsIdle(sql[2..], init, last, seen + {d});
    } else {
      OneMoreValue(sql[2..], init, last, seen + {d});
      if 1 <= d <= |init| && d !in seen {
        ReplaceAfter(init[d - 1], rest, Placeholder(n), last);
      } else {
        ReplaceOther(sql[1], rest, n, last);
      }
    }
  }

  lemma {:induction false} OneByOneSnoc(sql: string, values: seq<string>, init: seq<string>, last: string)
    requires values == init + [last]
    ensures OneByOne(sql, values) == ReplaceFirst(OneByOne(sql, init), Placeholder(|init| + 1), last)
  {
    assert values[..|values| - 1] == init;
  }

  /** Replacing the numbered placeholders one after the other is replacing them all at once, for templates in
      which every dollar sign has exactly one digit, up to nine values, and values without dollar signs. */
  lemma {:induction false} OneByOneIsAllAtOnce(sql: string, values: seq<string>)
    requires OneDigitEach(sql) && |values| <= 9 && forall i :: 0 <= i < |values| ==> '$' !in values[i]
    ensures OneByOne(sql, values) == AllAtOnce(sql, values, {})
    decreases |values|
  {
    if values == [] {
      NothingAtOnce(sql, {});
    } else {
      var init, last := values[..|values| - 1], values[|values| - 1];
      OneByOneSnoc(sql, values, init, last);
      OneByOneIsAllAtOnce(sql, init);
      OneMoreValue(sql, init, last, {});
    }
  }

  /** Outside that condition: the first placeholder is found inside the tenth. */
  lemma {:induction false} FirstIsFoundInsideTenth()
    ensures OneByOne("$10", ["x"]) == "x0"
    ensures AllAtOnce("$10", ["x"], {}) == "$10"
  {
    assert ["x"][..0] == [];
    assert Placeholder(1) == "$1" && "$1" <= "$10" && "$10"[2..] == "0";
    assert OneByOne("$10", []) == "$10";
    var digits := "$10"[1..];
    assert digits == "10" && digits[1..] == "0" && digits[1..][1..] == "";
    assert DigitRun("0") == 1;
    assert DigitRun(digits) == 2;
    assert digits[..2] == "10" && "10"[..1] == "1" && "1"[..0] == "";
    assert DigitsValue("1") == 1;
    assert DigitsValue("10") == 10;
    assert "$10"[3..] == "" && "$10"[..3] == "$10";
  }

  function Dollar(d: char, rest: string): string {
    ['$', d] + rest
  }

  lemma {:induction false} DollarHasOneDigit(d: char, rest: string)
    requires IsDigit(d) && OneDigitEach(rest) && (rest == "" || rest[0] == '$')
    ensures OneDigitEach(Dollar(d, rest))
  {
    var sql := Dollar(d, rest);
    assert sql[1..] == [d] + rest && ([d] + rest)[1..] == rest;
    assert DigitRun(rest) == 0;
  }

  /** One placeholder in front of a template, with its step written out. */
  lemma {:induction false} DollarAtOnce(d: char, n: nat, rest: string, values: seq<string>, seen: set<nat>)
    requires IsDigit(d) && n == d as int - 48 && 1 <= n <= |values| && OneDigitEach(Dollar(d, rest))
    ensures AllAtOnce(Dollar(d, rest), values, seen) ==
            (if n !in seen then values[n - 1] else ['$', d]) + AllAtOnce(rest, values, seen + {n})
  {
    var sql := Dollar(d, rest);
    assert sql[2..] == rest;
    assert sql[..2] == ['$', d];
    AllAtOnceDollar(sql, values, seen);
  }

  /** The template "$1$1$2". */
  const TWICE := Dollar('1', Dollar('1', Dollar('2', "")))

  lemma {:induction false} TwiceHasOneDigitEach()
    ensures OneDigitEach(Dollar('2', "")) && OneDigitEach(Dollar('1', Dollar('2', ""))) && OneDigitEach(TWICE)
  {
    DollarHasOneDigit('2', "");
    DollarHasOneDigit('1', Dollar('2', ""));
    DollarHasOneDigit('1', Dollar('1', Dollar('2', "")));
  }

  lemma {:induction false} TwiceAtOnce(values: seq<string>)
    requires |values| >= 2
    ensures AllAtOnce(TWICE, values, {}) == values[0] + (['$', '1'] + (values[1] + ""))
  {
    TwiceHasOneDigitEach();
    DollarAtOnce('1', 1, Dollar('1', Dollar('2', "")), values, {});
    DollarAtOnce('1', 1, Dollar('2', ""), values, {} + {1});
    DollarAtOnce('2', 2, "", values, {} + {1} + {1});
  }

  lemma {:induction false} TenthReplaced(tenth: string)
    ensures ReplaceFirst("a$10", Placeholder(10), tenth) == "a" + tenth
  {
    assert Digits(10) == "10" && Placeholder(10) == "$10";
    assert "a$10" == "a" + ("$10" + "");
    ReplaceAfter("a", "$10" + "", Placeholder(10), tenth);
    ReplaceHere(10, "", tenth);
    assert tenth + "" == tenth;
  }

  lemma {:induction false} NineValues(nine: seq<string>)
    requires nine == ["a", "0", "", "", "", "", "", "", ""]
    ensures OneByOne(TWICE, nine) == AllAtOnce(TWICE, nine, {})
  {
    TwiceHasOneDigitEach();
    forall i | 0 <= i < |nine| ensures '$' !in nine[i] {
      assert nine[i] in {"a", "0", ""};
    }
    OneByOneIsAllAtOnce(TWICE, nine);
  }

  /** Outside that condition: with a tenth value, a digit that a value puts behind a placeholder is read along with it.
      The template has one digit after every dollar sign, and no value has a dollar sign. */
  lemma {:induction false} TenthIsFoundAcrossValues(tenth: string)
    ensures OneDigitEach(TWICE)
    ensures var values := ["a", "0", "", "", "", "", "", "", "", tenth];
            OneByOne(TWICE, values) == "a" + tenth && AllAtOnce(TWICE, values, {}) == "a$10"
  {
    var values := ["a", "0", "", "", "", "", "", "", "", tenth];
    var nine := ["a", "0", "", "", "", "", "", "", ""];
    assert values[..9] == nine;
    TwiceHasOneDigitEach();
    TwiceAtOnce(values);
    TwiceAtOnce(nine);
    NineValues(nine);
    assert "a" + (['$', '1'] + ("0" + "")) == "a$10";
    TenthReplaced(tenth);
  }

  /** Outside that condition: a dollar sign in a value is read as a placeholder by a later replacement. */
  lemma {:induction false} ValueIsRescanned()
    ensures OneByOne("$1", ["$2", "x"]) == "x"
    ensures AllAtOnce("$1", ["$2", "x"], {}) == "$2"
  {
    var values := ["$2", "x"];
    assert values[..1] == ["$2"] && ["$2"][..0] == [];
    assert Placeholder(1) == "$1" && Placeholder(2) == "$2";
    assert OneByOne("$1", []) == "$1";
    assert "$1"[2..] == "" && "$2"[2..] == "";
    assert OneByOne("$1", ["$2"]) == "$2" + "";
    assert "$2" + "" == "$2" && "x" + "" == "x";
    assert OneDigitEach("$1") by {
      assert "$1"[1..] == "1" && "1"[1..] == "";
    }
    AllAtOnceDollar("$1", values, {});
  }
}
