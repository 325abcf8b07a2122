/** What the DDL parser makes of texts that the printer does not print: nested parentheses and quotes of any shape,
    constraints, and named keys. */
module SqlReading {
  import opened Text
  import opened SqlScan
  import opened SqlDdl
  import opened SqlParse
  import opened SqlColumns
  import opened SqlColumnTrip
  import opened SqlTableTrip
  import opened SqlEntries
  import opened SqlRoundTrip

  // ---------------------------------------------------------------- balanced texts

  /** One character of a quoted text, or one behind a backslash. */
  datatype Letter = Single(c: char) | Escaped(c: char)

  /** A text in which parentheses are balanced outside quotes. */
  datatype Balanced =
    | Empty
    | Plainly(c: char, rest: Balanced)
    | Quoted(mark: char, letters: seq<Letter>, rest: Balanced)
    | Nested(inner: Balanced, rest: Balanced)

  function LetterText(l: Letter): string {
    match l
    case Single(c) => [c]
    case Escaped(c) => ['\\', c]
  }

  function LettersText(letters: seq<Letter>): string {
    if letters == [] then "" else LetterText(letters[0]) + LettersText(letters[1..])
  }

  function BalancedText(b: Balanced): string {
    match b
    case Empty => ""
    case Plainly(c, rest) => [c] + BalancedText(rest)
    case Quoted(mark, letters, rest) => [mark] + LettersText(letters) + [mark] + BalancedText(rest)
    case Nested(inner, rest) => "(" + BalancedText(inner) + ")" + BalancedText(rest)
  }

  predicate IsLetter(mark: char, l: Letter) {
    l.Single? ==> l.c != mark && l.c != '\\'
  }

  /** Plain characters are neither quotes nor parentheses; in quotes only the mark and the backslash are special. */
  predicate IsBalanced(b: Balanced) {
    match b
    case Empty => true
    case Plainly(c, rest) => c !in {'(', ')', '\'', '"'} && IsBalanced(rest)
    case Quoted(mark, letters, rest) =>
      && mark in {'\'', '"'} && IsBalanced(rest)
      && forall i :: 0 <= i < |letters| ==> IsLetter(mark, letters[i])
    case Nested(inner, rest) => IsBalanced(inner) && IsBalanced(rest)
  }

  /** The scanner passes the text and is then as it was before. */
  predicate Passes(s: Scan, text: string) {
    Quiet(s, text) && Run(s, text) == s
  }

  lemma {:induction false} PassesConcat(s: Scan, a: string, b: string)
    requires Passes(s, a) && Passes(s, b)
    ensures Passes(s, a + b)
  {
    RunConcat(s, a, b);
    QuietConcat(s, a, b);
  }

  lemma {:induction false} PassesAround(s: Scan, open: char, inside: Scan, text: string, close: char)
    requires !Closes(s, open) && Step(s, open) == inside && Passes(inside, text)
    requires !Closes(inside, close) && Step(inside, close) == s
    ensures Passes(s, [open] + text + [close])
  {
    var rest := text + [close];
    RunConcat(inside, text, [close]);
    QuietConcat(inside, text, [close]);
    assert Run(inside, [close]) == s && Quiet(inside, [close]);
    assert [open] + text + [close] == [open] + rest && ([open] + rest)[1..] == rest;
  }

  lemma {:induction false} LetterPasses(depth: int, mark: char, l: Letter)
    requires IsLetter(mark, l) && mark != '\\'
    ensures Passes(Scan(depth, Inside(mark), false), LetterText(l))
  {
    var inside := Scan(depth, Inside(mark), false);
    match l
    case Single(c) =>
      assert Step(inside, c) == inside && [c][1..] == "";
      assert Run(inside, [c]) == Run(Step(inside, c), "");
    case Escaped(c) =>
      var escaping := Step(inside, '\\');
      assert ['\\', c][1..] == [c] && [c][1..] == "" && Step(escaping, c) == inside;
      assert Run(escaping, [c]) == Run(inside, "") && Quiet(escaping, [c]);
  }

  lemma {:induction false} LettersPass(depth: int, mark: char, letters: seq<Letter>)
    requires mark != '\\' && forall i :: 0 <= i < |letters| ==> IsLetter(mark, letters[i])
    ensures Passes(Scan(depth, Inside(mark), false), LettersText(letters))
    decreases |letters|
  {
    if letters != [] {
      var l := letters[0];
      LetterPasses(depth, mark, l);
      LettersPass(depth, mark, letters[1..]);
      PassesConcat(Scan(depth, Inside(mark), false), LetterText(l), LettersText(letters[1..]));
    }
  }

  lemma {:induction false} BalancedPasses(depth: int, b: Balanced)
    requires depth >= 1 && IsBalanced(b)
    ensures Passes(Scan(depth, Outside, false), BalancedText(b))
    decreases b
  {
    var s := Scan(depth, Outside, false);
    match b
    case Empty =>
    case Plainly(c, rest) =>
      BalancedPasses(depth, rest);
      assert Step(s, c) == s && ([c] + BalancedText(rest))[1..] == BalancedText(rest);
    case Quoted(mark, letters, rest) =>
      BalancedPasses(depth, rest);
      LettersPass(depth, mark, letters);
      PassesAround(s, mark, Scan(depth, Inside(mark), false), LettersText(letters), mark);
      PassesConcat(s, [mark] + LettersText(letters) + [mark], BalancedText(rest));
    case Nested(inner, rest) =>
      BalancedPasses(depth, rest);
      BalancedPasses(depth + 1, inner);
      PassesAround(s, '(', Scan(depth + 1, Outside, false), BalancedText(inner), ')');
      PassesConcat(s, "(" + BalancedText(inner) + ")", BalancedText(rest));
  }

  /** A parenthesis around a balanced text is matched by the one at its end, whatever stands before and after: with any
      nesting, quotes of both kinds, parentheses and marks of the other kind inside quotes, and backslashes. */
  lemma {:induction false} BalancedIsMatched(before: string, b: Balanced, after: string)
    requires IsBalanced(b)
    ensures MatchingParen(before + ("(" + BalancedText(b) + ")" + after), |before|) ==
            |before| + 1 + |BalancedText(b)|
  {
    var text, inside := BalancedText(b), Scan(1, Outside, false);
    var closing := ")" + after;
    var whole := "(" + text + ")" + after;
    BalancedPasses(1, b);
    StopAfterQuiet(inside, text, closing);
    assert whole == "(" + (text + closing) && whole[1..] == text + closing;
    assert !Closes(START, '(') && Step(START, '(') == inside;
    assert (before + whole)[|before|..] == whole;
  }

  /** A text whose quote is never closed hides every parenthesis behind it. */
  lemma {:induction false} OpenQuoteHides(before: string, b: Balanced, mark: char, letters: seq<Letter>)
    requires IsBalanced(b) && mark in {'\'', '"'} && forall i :: 0 <= i < |letters| ==> IsLetter(mark, letters[i])
    ensures MatchingParen(before + ("(" + BalancedText(b) + ([mark] + LettersText(letters))), |before|) == -1
  {
    var text, inside := BalancedText(b), Scan(1, Outside, false);
    var tail := [mark] + LettersText(letters);
    var whole := "(" + text + tail;
    BalancedPasses(1, b);
    LettersPass(1, mark, letters);
    assert Step(inside, mark) == Scan(1, Inside(mark), false) && tail[1..] == LettersText(letters);
    QuietConcat(inside, text, tail);
    QuietNeverStops(inside, text + tail);
    assert whole == "(" + (text + tail) && whole[1..] == text + tail;
    assert !Closes(START, '(') && Step(START, '(') == inside;
    assert (before + whole)[|before|..] == whole;
  }

  lemma {:induction false} QuietNeverStops(s: Scan, text: string)
    requires Quiet(s, text)
    ensures Stop(s, text) == None
    decreases |text|
  {
    if text != "" {
      QuietNeverStops(Step(s, text[0]), text[1..]);
    }
  }

  // ---------------------------------------------------------------- constraints

  lemma {:induction false} UpperBegins(word: string, more: string)
    ensures HasPrefix(Upper(word + more), Upper(word))
  {
    UpperConcats(word, more);
  }

  lemma {:induction false} BeginsOtherwise(upper: string, word: string)
    requires HasPrefix(upper, word) && word in {"INDEX", "KEY", "UNIQUE", "FOREIGN", "CHECK"}
    ensures !HasPrefix(upper, "PRIMARY KEY") && !HasPrefix(upper, "CONSTRAINT")
  {
    assert upper[0] == word[0] && upper[1] == word[1];
  }

  /** Index, unique, foreign-key and check entries are passed over, in any letter case. */
  lemma {:induction false} ConstraintIsSkipped(d: Dialect, so: Taken, word: string, more: string)
    requires Upper(word) in {"INDEX", "KEY", "UNIQUE", "FOREIGN", "CHECK"} && Trimmed(word + more)
    ensures TakeEntry(d, so, word + more) == so
  {
    var upper := Upper(word + more);
    TrimFixed(word + more);
    UpperBegins(word, more);
    BeginsOtherwise(upper, Upper(word));
  }

  lemma {:induction false} CaseAlike(a: string, b: string)
    ensures Lower(a) == Lower(b) <==> Upper(a) == Upper(b)
  {
    if Lower(a) == Lower(b) {
      forall i | 0 <= i < |a| ensures Upper(a)[i] == Upper(b)[i] {
        assert Lower(a)[i] == Lower(b)[i];
      }
    }
    if Upper(a) == Upper(b) {
      forall i | 0 <= i < |a| ensures Lower(a)[i] == Lower(b)[i] {
        assert Upper(a)[i] == Upper(b)[i];
      }
    }
  }

  /** A column ends up as a key column exactly if it says so itself or the key clause has its name, in any letter
      case. */
  lemma {:induction false} MarkedInAnyCase(columns: seq<ParsedColumn>, keys: seq<string>, i: nat)
    requires i < |columns|
    ensures MarkKeys(columns, keys)[i].primaryKey <==>
            columns[i].primaryKey || exists j :: 0 <= j < |keys| && Upper(keys[j]) == Upper(columns[i].name)
  {
    forall j | 0 <= j < |keys|
      ensures EqualFold(columns[i].name, keys[j]) <==> Upper(keys[j]) == Upper(columns[i].name)
    {
      CaseAlike(columns[i].name, keys[j]);
    }
  }

  // ---------------------------------------------------------------- named keys

  lemma {:induction false} EatenIs(word: string, s: string)
    requires Eat(word, s).Some?
    ensures |word| <= |s| && Eat(word, s) == Some(s[|word|..])
    ensures forall i :: 0 <= i < |word| ==> UpperChar(s[i]) == word[i]
  {
    if word != "" {
      EatenIs(word[1..], s[1..]);
      forall i | 0 <= i < |word| ensures UpperChar(s[i]) == word[i] {
        if i > 0 {
          assert s[1..][i - 1] == s[i] && word[1..][i - 1] == word[i];
        }
      }
    }
  }

  predicate NoP(w: string) {
    forall i :: 0 <= i < |w| ==> UpperChar(w[i]) != 'P'
  }

  /** A key clause does not start at a word that is followed by a key clause. */
  lemma {:induction false} NoKeyAtWord(w: string, more: string)
    requires w != "" && forall i :: 0 <= i < |w| ==> IsWordChar(w[i])
    requires more != "" && !IsBlank(more[0])
    requires UpperChar(more[0]) != 'K' || NoP(w)
    ensures MatchKey(w + (" " + more)) == None
  {
    var s := w + (" " + more);
    if EatKeyword("PRIMARY", s).Some? {
      EatenIs("PRIMARY", s);
      assert IsBlank(s[7]);
      assert |w| <= 7;
      assert s[|w|] == ' ';
      assert UpperChar(w[0]) == UpperChar(s[0]) == 'P';
      assert forall i :: 0 <= i < 7 ==> UpperChar(s[i]) == "PRIMARY"[i];
      assert |w| == 7;
      assert s[7..] == " " + more && (" " + more)[1..] == more;
      assert EatKeyword("PRIMARY", s) == Some(more);
    }
  }

  lemma {:induction false} WordSkipped(w: string, more: string)
    requires forall i :: 0 <= i < |w| ==> IsWordChar(w[i])
    requires more != "" && !IsBlank(more[0])
    requires UpperChar(more[0]) != 'K' || NoP(w)
    ensures FindKey(w + (" " + more)) == FindKey(more)
    decreases |w|
  {
    var s := w + (" " + more);
    if w == "" {
      assert s == " " + more && s[1..] == more;
      assert UpperChar(s[0]) != "PRIMARY"[0];
      assert MatchKey(s) == None;
    } else {
      NoKeyAtWord(w, more);
      assert s[1..] == w[1..] + (" " + more);
      WordSkipped(w[1..], more);
    }
  }

  lemma {:induction false} NamedKeyFound(name: string, clause: string)
    requires clause != "" && clause[0] == 'P'
    requires name != "" && forall i :: 0 <= i < |name| ==> IsWordChar(name[i])
    ensures FindKey("CONSTRAINT" + (" " + (name + (" " + clause)))) == FindKey(clause)
  {
    var named := name + (" " + clause);
    assert named[0] == name[0];
    WordSkipped(name, clause);
    WordSkipped("CONSTRAINT", named);
  }

  lemma {:induction false} NamedIsKeyEntry(more: string)
    ensures IsKeyEntry("CONSTRAINT" + more)
  {
    UpperBegins("CONSTRAINT", more);
    assert Upper("CONSTRAINT") == "CONSTRAINT";
  }

  lemma {:induction false} KeyColumnsOf(d: Dialect, entry: string, names: seq<string>)
    requires (d.MySQL? || d.SQLite?) && names != [] && Words(names)
    requires FindKey(entry) == Some(Join(QuoteAll(d, names), ", "))
    ensures KeyColumns(entry) == names
  {
    NamesSplit(d, names);
  }

  /** A key clause with a name is read like one without. */
  lemma {:induction false} NamedKeyIsRead(d: Dialect, name: string, names: seq<string>)
    requires (d.MySQL? || d.SQLite?) && names != [] && Words(names)
    requires name != "" && forall i :: 0 <= i < |name| ==> IsWordChar(name[i])
    ensures var clause := "PRIMARY KEY " + ("(" + Join(QuoteAll(d, names), ", ") + ")");
            var entry := "CONSTRAINT" + (" " + (name + (" " + clause)));
            IsKeyEntry(entry) && KeyColumns(entry) == names && KeyColumns(clause) == names
  {
    var list := Join(QuoteAll(d, names), ", ");
    var clause := "PRIMARY KEY " + ("(" + list + ")");
    var more := " " + (name + (" " + clause));
    ListChars(d, names);
    FoundKey(list);
    assert clause[0] == 'P';
    NamedKeyFound(name, clause);
    NamedIsKeyEntry(more);
    KeyColumnsOf(d, clause, names);
    KeyColumnsOf(d, "CONSTRAINT" + more, names);
  }

  // ---------------------------------------------------------------- words and marks

  /** A keyword of a header is read in any letter case, with any blanks behind it. */
  lemma {:induction false} KeywordInAnyCase(word: string, spelled: string, gap: string, rest: string)
    requires Upper(spelled) == word && gap != "" && (rest == "" || rest[0] !in " \t\n\r\U{000C}")
    requires forall i :: 0 <= i < |gap| ==> gap[i] in " \t\n\r\U{000C}"
    ensures EatKeyword(word, spelled + (gap + rest)) == Some(rest)
  {
    SpelledIsEaten(word, spelled, gap + rest);
    assert IsBlank(gap[0]);
    assert (gap + rest)[1..] == gap[1..] + rest;
    BlanksAreEaten(gap[1..], rest);
  }

  lemma {:induction false} SpelledIsEaten(word: string, spelled: string, rest: string)
    requires Upper(spelled) == word
    ensures Eat(word, spelled + rest) == Some(rest)
    decreases |word|
  {
    if word == "" {
      assert spelled + rest == rest;
    } else {
      AppendTail(spelled, rest);
      assert Upper(spelled[1..]) == word[1..];
      SpelledIsEaten(word[1..], spelled[1..], rest);
    }
  }

  lemma {:induction false} BlanksAreEaten(gap: string, rest: string)
    requires forall i :: 0 <= i < |gap| ==> gap[i] in " \t\n\r\U{000C}"
    requires rest == "" || rest[0] !in " \t\n\r\U{000C}"
    ensures EatBlanks(gap + rest) == rest
    decreases |gap|
  {
    if gap == "" {
      assert gap + rest == rest;
    } else {
      AppendTail(gap, rest);
      assert IsBlank(gap[0]);
      BlanksAreEaten(gap[1..], rest);
    }
  }

  /** The quotation marks of all dialects. */
  predicate AreMarks(open: char, close: char) {
    (open == close && (open == '`' || open == '"' || open == '\'')) || (open == '[' && close == ']')
  }

  /** The name of a table is read without its marks. */
  lemma {:induction false} MarkedTableIsRead(open: char, name: string, close: char, rest: string)
    requires AreMarks(open, close) && IsWord(name) && rest != "" && rest[0] == '('
    ensures MatchName([open] + (name + ([close] + (" " + rest)))) == Some(Header(name, rest))
  {
    ReadMarked(open, name, close, rest);
  }

  /** So is the name of a column. */
  lemma {:induction false} MarkedColumnIsRead(open: char, name: string, close: char)
    requires AreMarks(open, close) && IsWord(name)
    ensures TrimMarks([open] + name + [close]) == name
  {
    var inner := name + [close];
    TrimMarksWord(name);
    assert [open] + name + [close] == [open] + inner && ([open] + inner)[1..] == inner;
    assert inner[0] == name[0] && IsWordChar(name[0]);
    assert open in MARKS && close in MARKS;
    assert TrimMarksLeft(inner) == inner && TrimMarksLeft([open] + inner) == inner;
    assert inner[..|inner| - 1] == name;
  }

  // ---------------------------------------------------------------- parameters

  /** Of several parameters of a type the first is its size. */
  lemma {:induction false} SizeIsFirstParameter(base: string, n: nat, more: string, tail: string)
    requires IsWord(base) && n < 0x8000_0000_0000_0000 && ')' !in more
    ensures TypeSize(base + ("(" + (Digits(n) + [','] + more + [')'] + tail))) == n
  {
    var list := Digits(n) + [','] + more;
    var rest := "(" + (list + [')'] + tail);
    var r := base + rest;
    WordLengthOf(base, rest);
    assert r[|base| + 1..] == rest[1..] == list + [')'] + tail;
    assert forall i :: 0 <= i < |Digits(n)| ==> IsDigit(Digits(n)[i]);
    IndexOfAfter(list, ')', tail);
    assert (list + [')'] + tail)[..|list|] == list;
    assert TypeParams(r) == list;
    SplitCons(Digits(n), more, ',');
    DigitsAreTrimmed(n);
    ParseFormatted(n, 64);
  }

  lemma {:induction false} DigitsAreTrimmed(n: nat)
    ensures TrimSpace(Digits(n)) == Digits(n) && AtoiOrZero(Digits(n)) == if n < 0x8000_0000_0000_0000 then n
                                                                         else 0x7FFF_FFFF_FFFF_FFFF
  {
    var digits := Digits(n);
    assert IsDigit(digits[0]) && IsDigit(digits[|digits| - 1]);
    TrimFixed(digits);
    ParseFormatted(n, 64);
  }

  /** A serial column of PostgreSQL, in any letter case, counts by itself. */
  lemma {:induction false} SerialCounts(name: string, ty: string)
    requires IsWord(name) && Upper(ty) in {"SERIAL", "BIGSERIAL"}
    ensures var c := ParseColumn(PostgreSQL, name + " " + ty);
            c.Some? && c.value.autoIncrement && c.value.name == name
  {
    SerialIsWord(ty);
    SerialIsFound(Upper(ty));
    WordIsField(name);
    WordIsField(ty);
    FieldsOfJoin([name, ty]);
    assert Join([name, ty], " ") == name + " " + ty;
    assert [name, ty][1..] == [ty];
    assert ty + "" == ty;
    WordLengthOf(ty, "");
    TrimMarksWord(name);
  }

  lemma {:induction false} SerialIsWord(ty: string)
    requires Upper(ty) in {"SERIAL", "BIGSERIAL"}
    ensures IsWord(ty)
  {
    forall i | 0 <= i < |ty| ensures IsWordChar(ty[i]) {
      assert 'A' <= Upper(ty)[i] <= 'Z';
    }
  }

  lemma {:induction false} SerialIsFound(upper: string)
    requires upper in {"SERIAL", "BIGSERIAL"}
    ensures Contains(upper, "SERIAL")
  {
    ContainsMiddle("", "SERIAL", "");
    ContainsMiddle("BIG", "SERIAL", "");
    assert "" + "SERIAL" + "" == "SERIAL" && "BIG" + "SERIAL" + "" == "BIGSERIAL";
  }

  lemma {:induction false} WordIsField(w: string)
    requires IsWord(w)
    ensures IsField(w)
  {
    forall i | 0 <= i < |w| ensures !IsSpace(w[i]) {
      assert IsWordChar(w[i]);
    }
  }
}
