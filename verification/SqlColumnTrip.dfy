/** A printed column definition is parsed back. */
module SqlColumnTrip {
  import opened Text
  import opened SqlScan
  import opened SqlDdl
  import opened SqlTypes
  import opened SqlParse
  import opened SqlColumns
  import opened SqlModifiers

  function ModsOf(d: Dialect, unsigned: bool, c: Column): Mods {
    Mods(unsigned, IsInlineKey(d, c), !IsInlineKey(d, c) && (c.notNull || c.primaryKey), c.autoIncrement)
  }

  // ---------------------------------------------------------------- the printed text

  function Suffix(parts: seq<string>): string {
    if parts == [] then "" else " " + parts[0] + Suffix(parts[1..])
  }

  lemma {:induction false} JoinIsSuffix(first: string, parts: seq<string>)
    ensures Join([first] + parts, " ") == first + Suffix(parts)
    decreases |parts|
  {
    if parts == [] {
      assert [first] + parts == [first] && first + "" == first;
    } else {
      assert ([first] + parts)[1..] == parts;
      JoinIsSuffix(parts[0], parts[1..]);
      assert [parts[0]] + parts[1..] == parts;
      assert first + " " + (parts[0] + Suffix(parts[1..])) == first + (" " + parts[0] + Suffix(parts[1..]));
    }
  }

  lemma {:induction false} SuffixPair(a: Option<string>, b: Option<string>)
    ensures Suffix((if a.Some? then [a.value] else []) + (if b.Some? then [b.value] else [])) ==
            (if a.Some? then " " + a.value else "") + (if b.Some? then " " + b.value else "")
  {
    var x := if a.Some? then [a.value] else [];
    var y := if b.Some? then [b.value] else [];
    assert Suffix(y) == if b.Some? then " " + b.value else "" by {
      if b.Some? {
        assert y[1..] == [];
        assert Suffix([]) == "" && " " + b.value + "" == " " + b.value;
      }
    }
    if a.Some? {
      assert (x + y)[1..] == y;
    } else {
      assert x + y == y && "" + Suffix(y) == Suffix(y);
    }
  }

  /** A definition without default and comment, flattened. */
  lemma {:induction false} PartsFlat(d: Dialect, c: Column)
    requires (d.MySQL? || d.SQLite?) && c.default == "" && c.comment == ""
    ensures ColumnDef(d, c) == Quote(d, c.name) + " " + (c.sqlType + ModText(d, c))
  {
    var x, y := FirstMod(d, c), LastMod(d, c);
    var mods := (if x.Some? then [x.value] else []) + (if y.Some? then [y.value] else []);
    PartsAre(d, c);
    SuffixPair(x, y);
    JoinIsSuffix(c.sqlType, mods);
    assert ([Quote(d, c.name)] + ([c.sqlType] + mods))[1..] == [c.sqlType] + mods;
  }

  function FirstMod(d: Dialect, c: Column): Option<string> {
    if IsInlineKey(d, c) then Some("PRIMARY KEY") else if c.notNull || c.primaryKey then Some("NOT NULL") else None
  }

  function LastMod(d: Dialect, c: Column): Option<string> {
    if c.autoIncrement then Some(AutoIncrementKeyword(d)) else None
  }

  function ModText(d: Dialect, c: Column): string {
    (if FirstMod(d, c).Some? then " " + FirstMod(d, c).value else "") +
      (if LastMod(d, c).Some? then " " + LastMod(d, c).value else "")
  }

  lemma {:induction false} PartsAre(d: Dialect, c: Column)
    requires (d.MySQL? || d.SQLite?) && c.default == "" && c.comment == ""
    ensures var x, y := FirstMod(d, c), LastMod(d, c);
            ColumnParts(d, c) ==
              [c.sqlType] + ((if x.Some? then [x.value] else []) + (if y.Some? then [y.value] else []))
  {
  }

  lemma {:induction false} TailIsMods(d: Dialect, unsigned: bool, c: Column)
    ensures UnsignedText(unsigned) + ModText(d, c) == Tail(d, ModsOf(d, unsigned, c))
  {
    var m := ModsOf(d, unsigned, c);
    var u, k, n, t := UnsignedText(unsigned), KeyText(m.key), NotNullText(m.notNull), AutoText(d, m.auto);
    assert ModText(d, c) == k + n + t;
    assert u + (k + n + t) == u + k + n + t;
  }

  lemma {:induction false} DefIs(d: Dialect, c: Column, s: Shape)
    requires (d.MySQL? || d.SQLite?) && c.default == "" && c.comment == "" && c.sqlType == ShapeText(s)
    ensures ColumnDef(d, c) == Quote(d, c.name) + " " + (FirstWord(s) + Tail(d, ModsOf(d, s.unsigned, c)))
  {
    PartsFlat(d, c);
    TailIsMods(d, s.unsigned, c);
    Regroup(FirstWord(s), UnsignedText(s.unsigned), ModText(d, c));
  }

  // ---------------------------------------------------------------- the type

  lemma {:induction false} BaseFacts(base: string, a: char, b: char)
    requires IsBase(base) && (Telling(a, b) || a == ' ')
    ensures Lacks(base, a, b)
  {
  }

  lemma {:induction false} ParamChars(param: Option<nat>)
    ensures forall i :: 0 <= i < |ParamText(param)| ==> var c := ParamText(param)[i]; c == '(' || c == ')' || IsDigit(c)
    ensures ParamText(param) != "" ==> ParamText(param)[0] == '('
  {
    if param.Some? {
      var digits := Digits(param.value);
      assert AllDigits(digits);
    }
  }

  lemma {:induction false} WordLacks(s: Shape, a: char, b: char)
    requires IsBase(s.base) && (Telling(a, b) || (a == ' ' && b == 'N'))
    ensures Lacks(FirstWord(s), a, b)
  {
    BaseFacts(s.base, a, b);
    ParamChars(s.param);
    LacksConcat(s.base, ParamText(s.param), a, b);
  }

  predicate WordOnly(c: char) {
    ('A' <= c <= 'Z' && c != 'K') || c == '(' || c == ')' || IsDigit(c)
  }

  lemma {:induction false} TypeWordChars(s: Shape)
    requires IsBase(s.base)
    ensures FirstWord(s) != "" && forall i :: 0 <= i < |FirstWord(s)| ==> WordOnly(FirstWord(s)[i])
  {
    ParamChars(s.param);
    var w, p := FirstWord(s), ParamText(s.param);
    forall i | 0 <= i < |w| ensures WordOnly(w[i]) {
      if i >= |s.base| {
        assert w[i] == p[i - |s.base|];
      }
    }
  }

  lemma {:induction false} FirstWordIsTypeWord(s: Shape)
    requires IsBase(s.base)
    ensures IsTypeWord(FirstWord(s))
  {
    TypeWordChars(s);
    WordLacks(s, 'C', 'R');
    WordLacks(s, 'S', 'E');
    WordLacks(s, 'I', 'D');
    WordLacks(s, 'U', 'N');
    WordLacks(s, ' ', 'N');
  }

  lemma {:induction false} WordLengthOf(w: string, rest: string)
    requires forall i :: 0 <= i < |w| ==> IsWordChar(w[i])
    requires rest == "" || !IsWordChar(rest[0])
    ensures WordLength(w + rest) == |w|
    decreases |w|
  {
    if w == "" {
      assert w + rest == rest;
    } else {
      AppendTail(w, rest);
      WordLengthOf(w[1..], rest);
    }
  }

  lemma {:induction false} IndexOfAfter(a: string, c: char, rest: string)
    requires c !in a
    ensures IndexOf(a + [c] + rest, c) == |a|
  {
    if a == "" {
      assert a + [c] + rest == [c] + rest;
    } else {
      assert (a + [c] + rest)[1..] == a[1..] + [c] + rest;
      IndexOfAfter(a[1..], c, rest);
    }
  }

  lemma {:induction false} ParamsRead(base: string, digits: string, tail: string)
    requires IsWord(base) && digits != "" && AllDigits(digits)
    ensures var r := base + ("(" + digits + ")") + tail;
            WordLength(r) == |base| && r[..|base|] == base && TypeParams(r) == digits
  {
    var rest := "(" + (digits + [')'] + tail);
    var r := base + ("(" + digits + ")") + tail;
    assert r == base + rest;
    WordLengthOf(base, rest);
    assert r[|base| + 1..] == rest[1..] == digits + [')'] + tail;
    IndexOfAfter(digits, ')', tail);
    assert (digits + [')'] + tail)[..|digits|] == digits;
  }

  lemma {:induction false} NoParamsRead(base: string, tail: string)
    requires IsWord(base) && Behind(tail)
    ensures var r := base + tail;
            WordLength(r) == |base| && r[..|base|] == base && TypeParams(r) == ""
  {
    WordLengthOf(base, tail);
  }

  /** The parser finds the base word and the parameter again. */
  lemma {:induction false} WordAndParam(s: Shape, tail: string)
    requires IsBase(s.base) && Behind(tail)
    ensures var r := FirstWord(s) + tail;
            WordLength(r) == |s.base| && r[..|s.base|] == s.base &&
            TypeParams(r) == match s.param case None => "" case Some(n) => Digits(n)
  {
    if s.param.Some? {
      ParamsRead(s.base, Digits(s.param.value), tail);
    } else {
      assert FirstWord(s) == s.base;
      NoParamsRead(s.base, tail);
    }
  }

  lemma {:induction false} SizeFound(s: Shape, tail: string)
    requires IsBase(s.base) && Behind(tail) && (s.param.Some? ==> s.param.value <= 255)
    ensures TypeSize(FirstWord(s) + tail) == match s.param case None => 0 case Some(n) => n
  {
    WordAndParam(s, tail);
    if s.param.Some? {
      DigitsAtoi(s.param.value);
    }
  }

  lemma {:induction false} DigitsTrimmed(digits: string)
    requires digits != "" && AllDigits(digits)
    ensures TrimSpace(Split(digits, ',')[0]) == digits
  {
    SplitNone(digits, ',');
    assert IsDigit(digits[0]) && IsDigit(digits[|digits| - 1]);
    TrimFixed(digits);
  }

  lemma {:induction false} DigitsAtoi(n: nat)
    requires n <= 255
    ensures AtoiOrZero(TrimSpace(Split(Digits(n), ',')[0])) == n
  {
    DigitsTrimmed(Digits(n));
    ParseFormatted(n, 64);
  }

  lemma {:induction false} BaseFound(s: Shape)
    requires IsBase(s.base)
    ensures BaseType(FirstWord(s)) == s.base
  {
    if s.param.Some? {
      var more := Digits(s.param.value) + ")";
      assert FirstWord(s) == s.base + ['('] + more;
      IndexOfAfter(s.base, '(', more);
      assert FirstWord(s)[..|s.base|] == s.base;
    } else {
      assert FirstWord(s) == s.base;
    }
  }

  lemma {:induction false} OneFound(s: Shape)
    requires IsBase(s.base)
    ensures s.param.None? ==> !Contains(FirstWord(s), "(1)")
    ensures s.param == Some(1) ==> Contains(FirstWord(s), "(1)")
  {
    if s.param.None? {
      assert FirstWord(s) == s.base;
      assert "(1)"[0] == '(';
      ContainsHasChar(s.base, "(1)", '(');
    } else if s.param == Some(1) {
      assert Digits(1) == "1";
      ContainsMiddle(s.base, "(1)", "");
      assert FirstWord(s) == s.base + "(1)" + "";
    }
  }

  lemma {:induction false} ReverseOfShape(s: Shape)
    requires IsBase(s.base)
    ensures MySqlReverse(FirstWord(s)) == MySqlOfBase(s.base, Contains(FirstWord(s), "(1)"), false)
  {
    TypeWordChars(s);
    UpperFixed(FirstWord(s));
    BaseFound(s);
    WordLacks(s, 'U', 'N');
    PairsFound(FirstWord(s));
  }

  lemma {:induction false} TinyBase(one: bool)
    ensures MySqlOfBase("TINYINT", one, false) == if one then GoBool else GoInt8
    ensures MySqlOfBase("SMALLINT", one, false) == GoInt16
    ensures MySqlOfBase("INT", one, false) == GoInt32
    ensures MySqlOfBase("BIGINT", one, false) == GoInt64
    ensures MySqlOfBase("FLOAT", one, false) == GoFloat32
    ensures MySqlOfBase("DOUBLE", one, false) == GoFloat64
  {
  }

  lemma {:induction false} TextBases(one: bool)
    ensures MySqlOfBase("VARCHAR", one, false) == GoString
    ensures MySqlOfBase("TEXT", one, false) == GoString
  {
  }

  lemma {:induction false} OtherBases(one: bool)
    ensures MySqlOfBase("DATETIME", one, false) == GoTime
    ensures MySqlOfBase("BLOB", one, false) == GoBytes
  {
  }

  lemma {:induction false} SqliteInteger()
    ensures SqliteReverse("INTEGER") == GoInt64
  {
    IntegerBase();
    UpperFixed("INTEGER");
    ContainsMiddle("", "INT", "EGER");
    assert "" + "INT" + "EGER" == "INTEGER";
  }

  lemma {:induction false} LettersFound(s: string)
    ensures Contains(s, "INT") ==> 'N' in s && 'I' in s
    ensures Contains(s, "CHAR") ==> 'H' in s
    ensures Contains(s, "TEXT") ==> 'X' in s
    ensures Contains(s, "CLOB") ==> 'C' in s
  {
    assert "INT"[0] == 'I' && "INT"[1] == 'N' && "CHAR"[1] == 'H' && "TEXT"[2] == 'X' && "CLOB"[0] == 'C';
    ContainsHasChar(s, "INT", 'N');
    ContainsHasChar(s, "INT", 'I');
    ContainsHasChar(s, "CHAR", 'H');
    ContainsHasChar(s, "TEXT", 'X');
    ContainsHasChar(s, "CLOB", 'C');
  }

  lemma {:induction false} MoreLettersFound(s: string)
    ensures Contains(s, "REAL") ==> 'R' in s
    ensures Contains(s, "FLOA") ==> 'F' in s
    ensures Contains(s, "DOUB") ==> 'U' in s
    ensures Contains(s, "BLOB") ==> 'B' in s
  {
    assert "REAL"[0] == 'R' && "FLOA"[0] == 'F' && "DOUB"[2] == 'U' && "BLOB"[0] == 'B';
    ContainsHasChar(s, "REAL", 'R');
    ContainsHasChar(s, "FLOA", 'F');
    ContainsHasChar(s, "DOUB", 'U');
    ContainsHasChar(s, "BLOB", 'B');
  }

  lemma {:induction false} ContainsItself(s: string)
    ensures Contains(s, s)
  {
    ContainsMiddle("", s, "");
    assert "" + s + "" == s;
  }

  lemma {:induction false} SqliteWithoutI(s: string)
    requires Upper(s) == s && 'I' !in s
    ensures Contains(s, "TEXT") ==> SqliteReverse(s) == GoString
    ensures Contains(s, "REAL") && 'H' !in s && 'X' !in s && 'C' !in s ==> SqliteReverse(s) == GoFloat64
  {
    LettersFound(s);
  }

  lemma {:induction false} SqliteText()
    ensures SqliteReverse("TEXT") == GoString
  {
    UpperFixed("TEXT");
    ContainsItself("TEXT");
    SqliteWithoutI("TEXT");
  }

  lemma {:induction false} SqliteReal()
    ensures SqliteReverse("REAL") == GoFloat64
  {
    UpperFixed("REAL");
    ContainsItself("REAL");
    SqliteWithoutI("REAL");
  }

  /** A text with none of the letters that the earlier searches need. */
  lemma {:induction false} SqliteByLetters(s: string)
    requires Upper(s) == s && 'N' !in s && 'H' !in s && 'X' !in s && 'C' !in s && 'R' !in s && 'F' !in s && 'U' !in s
    ensures Contains(s, "BLOB") ==> SqliteReverse(s) == GoBytes
    ensures 'B' !in s && s == "DATETIME" ==> SqliteReverse(s) == GoTime
  {
    LettersFound(s);
    MoreLettersFound(s);
  }

  lemma {:induction false} BlobLetters()
    ensures var s := "BLOB";
            'N' !in s && 'H' !in s && 'X' !in s && 'C' !in s && 'R' !in s && 'F' !in s && 'U' !in s
  {
  }

  lemma {:induction false} DatetimeLetters()
    ensures var s := "DATETIME";
            'N' !in s && 'H' !in s && 'X' !in s && 'C' !in s && 'R' !in s && 'F' !in s && 'U' !in s && 'B' !in s
  {
  }

  lemma {:induction false} SqliteBlob()
    ensures SqliteReverse("BLOB") == GoBytes
  {
    UpperFixed("BLOB");
    ContainsItself("BLOB");
    BlobLetters();
    SqliteByLetters("BLOB");
  }

  lemma {:induction false} SqliteDatetime()
    ensures SqliteReverse("DATETIME") == GoTime
  {
    UpperFixed("DATETIME");
    DatetimeLetters();
    SqliteByLetters("DATETIME");
  }

  // ---------------------------------------------------------------- the Go type

  /** How the parser corrects the dialect's answer. */
  function Corrected(base: string, size: int, unsigned: bool, ty: GoType): GoType {
    if (base == "TINYINT" || base == "BIT") && size == 1 then GoBool else if unsigned then Unsign(ty) else ty
  }

  function SizeOf(s: Shape): int {
    match s.param case None => 0 case Some(n) => n
  }

  lemma {:induction false} BehindTail(d: Dialect, m: Mods)
    ensures Behind(Tail(d, m))
  {
    var u, k, n, t := UnsignedText(m.unsigned), KeyText(m.key), NotNullText(m.notNull), AutoText(d, m.auto);
    BehindConcats(u, k, n, t);
  }

  lemma {:induction false} BehindConcats(u: string, k: string, n: string, t: string)
    requires Behind(u) && Behind(k) && Behind(n) && Behind(t)
    ensures Behind(u + k + n + t)
  {
  }

  lemma {:induction false} GoTypeFrom(d: Dialect, sqlType: string, rest: string, base: string, size: int,
                                      unsigned: bool)
    requires Upper(rest[..WordLength(rest)]) == base && TypeSize(rest) == size
    requires Contains(Upper(rest), "UNSIGNED") <==> unsigned
    ensures ColumnGoType(d, sqlType, rest) == Corrected(base, size, unsigned, ReverseType(d, sqlType))
  {
  }

  lemma {:induction false} BaseOfRest(d: Dialect, s: Shape, m: Mods, rest: string)
    requires (d.MySQL? || d.SQLite?) && IsBase(s.base) && rest == FirstWord(s) + Tail(d, m)
    requires s.param.Some? ==> s.param.value <= 255
    ensures Upper(rest[..WordLength(rest)]) == s.base
  {
    BehindTail(d, m);
    WordAndParam(s, Tail(d, m));
    UpperFixed(s.base);
  }

  lemma {:induction false} SignOfRest(d: Dialect, s: Shape, m: Mods, rest: string)
    requires (d.MySQL? || d.SQLite?) && IsBase(s.base) && rest == FirstWord(s) + Tail(d, m)
    ensures Contains(Upper(rest), "UNSIGNED") <==> m.unsigned
  {
    FirstWordIsTypeWord(s);
    UpperRest(d, m, FirstWord(s));
    FindsUnsigned(d, m, FirstWord(s));
  }

  lemma {:induction false} ColumnGoTypeIs(d: Dialect, s: Shape, m: Mods)
    requires (d.MySQL? || d.SQLite?) && IsBase(s.base) && m.unsigned == s.unsigned &&
             (s.param.Some? ==> s.param.value <= 255)
    ensures ColumnGoType(d, FirstWord(s), FirstWord(s) + Tail(d, m)) ==
            Corrected(s.base, SizeOf(s), s.unsigned, ReverseType(d, FirstWord(s)))
  {
    var rest := FirstWord(s) + Tail(d, m);
    BehindTail(d, m);
    SizeFound(s, Tail(d, m));
    BaseOfRest(d, s, m, rest);
    SignOfRest(d, s, m, rest);
    GoTypeFrom(d, FirstWord(s), rest, s.base, SizeOf(s), s.unsigned);
  }

  lemma {:induction false} MySqlCanonical(ty: GoType, size: int)
    ensures var s := MySqlShape(ty, size);
            Corrected(s.base, SizeOf(s), s.unsigned, MySqlOfBase(s.base, false, false)) == CanonicalType(MySQL, ty)
    ensures var s := MySqlShape(ty, size);
            s.param.Some? ==>
              Corrected(s.base, SizeOf(s), s.unsigned, MySqlOfBase(s.base, true, false)) == CanonicalType(MySQL, ty)
  {
    TinyBase(true);
    TinyBase(false);
    TextBases(true);
    TextBases(false);
    OtherBases(false);
  }

  lemma {:induction false} SqliteCanonical(ty: GoType)
    ensures Corrected(SqliteType(ty), 0, false, SqliteReverse(SqliteType(ty))) == CanonicalType(SQLite, ty)
  {
    SqliteInteger();
    SqliteText();
    SqliteReal();
    SqliteBlob();
    SqliteDatetime();
  }

  lemma {:induction false} TypeRecovered(d: Dialect, ty: GoType, size: int)
    requires d.MySQL? || d.SQLite?
    ensures var s := ShapeOf(d, ty, size);
            Corrected(s.base, SizeOf(s), s.unsigned, ReverseType(d, FirstWord(s))) == CanonicalType(d, ty)
  {
    var s := ShapeOf(d, ty, size);
    BasesAreFit(d, ty, size);
    if d.MySQL? {
      ReverseOfShape(s);
      OneFound(s);
      MySqlCanonical(ty, size);
    } else {
      assert FirstWord(s) == s.base;
      SqliteCanonical(ty);
    }
  }

  // ---------------------------------------------------------------- the column

  /** What reading a printed column definition gives. */
  function Recovered(d: Dialect, c: Column, ty: GoType, size: int): ParsedColumn
    requires d.MySQL? || d.SQLite?
  {
    var s := ShapeOf(d, ty, size);
    ParsedColumn(c.name, FirstWord(s), CanonicalType(d, ty),
                 IsInlineKey(d, c), c.autoIncrement, !IsInlineKey(d, c) && (c.notNull || c.primaryKey), SizeOf(s))
  }

  lemma {:induction false} QuoteIsField(d: Dialect, name: string)
    requires IsWord(name)
    ensures IsField(Quote(d, name))
  {
  }

  lemma {:induction false} QuotedFields(q: string, r: string, words: seq<string>)
    requires IsField(q) && Fields(r) == words
    ensures Fields(q + " " + r) == [q] + words
  {
    Regroup(q, " ", r);
    FieldsCons(q, " " + r);
    assert (" " + r)[1..] == r;
  }

  lemma {:induction false} ParseWords(d: Dialect, name: string, w: string, t: string)
    requires (d.MySQL? || d.SQLite?) && IsWord(name) && IsField(w) && Spaced(t) && WordLength(w + t) != 0
    ensures var r := w + t;
            ParseColumn(d, Quote(d, name) + " " + r) ==
            Some(ParsedColumn(name, w, ColumnGoType(d, w, r), Contains(Upper(r), "PRIMARY KEY"),
                              HasAutoIncrement(Upper(r)), Contains(Upper(r), "NOT NULL"), TypeSize(r)))
  {
    var q, r := Quote(d, name), w + t;
    QuoteIsField(d, name);
    FirstAndRest(w, t);
    QuotedFields(q, r, [w] + Fields(t));
    assert ([q] + Fields(r))[1..] == Fields(r);
    TrimMarksQuoted(d, name);
  }

  /** One column, printed and parsed: the name, the canonical Go type, the flags and the size come back. */
  lemma {:induction false} ColumnRoundTrip(d: Dialect, c: Column, ty: GoType, size: int)
    requires (d.MySQL? || d.SQLite?) && IsWord(c.name) && c.default == "" && c.comment == "" &&
             c.sqlType == TypeText(d, ty, size)
    ensures ParseColumn(d, ColumnDef(d, c)) == Some(Recovered(d, c, ty, size))
  {
    var s := ShapeOf(d, ty, size);
    var m := ModsOf(d, s.unsigned, c);
    var w, t := FirstWord(s), Tail(d, m);
    TypeTextIsShape(d, ty, size);
    BasesAreFit(d, ty, size);
    DefIs(d, c, s);
    RestRoundTrip(d, c.name, s, m);
    TypeRecovered(d, ty, size);
  }

  lemma {:induction false} RestRoundTrip(d: Dialect, name: string, s: Shape, m: Mods)
    requires (d.MySQL? || d.SQLite?) && IsWord(name) && IsBase(s.base)
    requires m.unsigned == s.unsigned && (s.param.Some? ==> s.param.value <= 255)
    ensures ParseColumn(d, Quote(d, name) + " " + (FirstWord(s) + Tail(d, m))) ==
            Some(ParsedColumn(name, FirstWord(s),
                              Corrected(s.base, SizeOf(s), s.unsigned, ReverseType(d, FirstWord(s))),
                              m.key, m.auto, m.notNull, SizeOf(s)))
  {
    var w, t := FirstWord(s), Tail(d, m);
    FirstWordIsTypeWord(s);
    TailIsSpaced(d, m);
    BehindTail(d, m);
    WordAndParam(s, t);
    ParseWords(d, name, w, t);
    UpperRest(d, m, w);
    ColumnGoTypeIs(d, s, m);
    FindsKey(d, m, w);
    FindsAuto(d, m, w);
    FindsNotNull(d, m, w);
    SizeFound(s, t);
  }
}
