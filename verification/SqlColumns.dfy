/** A column definition that was printed is parsed back. */
module SqlColumns {
  import opened Text
  import opened SqlScan
  import opened SqlDdl
  import opened SqlTypes
  import opened SqlParse

  // ---------------------------------------------------------------- searching for texts

  predicate HasPair(s: string, a: char, b: char) {
    exists i :: 0 <= i < |s| - 1 && s[i] == a && s[i + 1] == b
  }

  /** A text that lacks a character of another does not contain it. */
  lemma {:induction false} ContainsHasChar(s: string, sub: string, c: char)
    requires c in sub
    ensures Contains(s, sub) ==> c in s
  {
    var k :| 0 <= k < |sub| && sub[k] == c;
    if Contains(s, sub) {
      var i :| 0 <= i <= |s| && OccursAt(s, sub, i);
      assert s[i + k] == s[i..i + |sub|][k];
    }
  }

  /** A text that lacks two neighbours of another does not contain it. */
  lemma {:induction false} ContainsHasPair(s: string, sub: string, k: nat)
    requires k + 1 < |sub|
    ensures Contains(s, sub) ==> HasPair(s, sub[k], sub[k + 1])
  {
    if Contains(s, sub) {
      var i :| 0 <= i <= |s| && OccursAt(s, sub, i);
      var t := s[i..i + |sub|];
      assert s[i + k] == t[k] && s[i + k + 1] == t[k + 1];
    }
  }

  lemma {:induction false} ContainsMiddle(a: string, sub: string, b: string)
    ensures Contains(a + sub + b, sub)
  {
    var s := a + sub + b;
    assert s[|a|..|a| + |sub|] == sub;
    assert OccursAt(s, sub, |a|);
  }

  lemma {:induction false} NoPairConcat(s: string, t: string, a: char, b: char)
    requires s == "" || t == "" || s[|s| - 1] != a || t[0] != b
    ensures HasPair(s + t, a, b) ==> HasPair(s, a, b) || HasPair(t, a, b)
  {
    if HasPair(s + t, a, b) {
      var i :| 0 <= i < |s + t| - 1 && (s + t)[i] == a && (s + t)[i + 1] == b;
      if i >= |s| {
        assert t[i - |s|] == a && t[i - |s| + 1] == b;
      }
    }
  }

  // ---------------------------------------------------------------- words

  predicate IsField(w: string) {
    w != "" && forall i :: 0 <= i < |w| ==> !IsSpace(w[i])
  }

  lemma {:induction false} FieldLengthOf(w: string, rest: string)
    requires forall i :: 0 <= i < |w| ==> !IsSpace(w[i])
    requires rest == "" || IsSpace(rest[0])
    ensures FieldLength(w + rest) == |w|
    decreases |w|
  {
    if w == "" {
      assert w + rest == rest;
    } else {
      AppendTail(w, rest);
      FieldLengthOf(w[1..], rest);
    }
  }

  lemma {:induction false} FieldsCons(w: string, rest: string)
    requires IsField(w) && (rest == "" || IsSpace(rest[0]))
    ensures Fields(w + rest) == [w] + Fields(rest)
  {
    FieldLengthOf(w, rest);
    assert (w + rest)[..|w|] == w && (w + rest)[|w|..] == rest;
  }

  /** Words joined with single spaces are found again as words. */
  lemma {:induction false} FieldsOfJoin(ws: seq<string>)
    requires forall i :: 0 <= i < |ws| ==> IsField(ws[i])
    ensures Fields(Join(ws, " ")) == ws
  {
    if |ws| == 1 {
      FieldsCons(ws[0], "");
      assert ws[0] + "" == ws[0];
    } else if |ws| > 1 {
      var rest := Join(ws[1..], " ");
      FieldsOfJoin(ws[1..]);
      FieldsCons(ws[0], " " + rest);
      assert ws[0] + " " + rest == ws[0] + (" " + rest);
      assert (" " + rest)[1..] == rest;
      assert ws == [ws[0]] + ws[1..];
    }
  }

  lemma {:induction false} JoinConcat(a: seq<string>, b: seq<string>, sep: string)
    requires a != [] && b != []
    ensures Join(a + b, sep) == Join(a, sep) + sep + Join(b, sep)
  {
    if |a| == 1 {
      assert (a + b)[1..] == b;
    } else {
      assert (a + b)[1..] == a[1..] + b;
      JoinConcat(a[1..], b, sep);
      assert a[0] + sep + (Join(a[1..], sep) + sep + Join(b, sep)) ==
        (a[0] + sep + Join(a[1..], sep)) + sep + Join(b, sep);
    }
  }

  // ---------------------------------------------------------------- names

  predicate IsWord(name: string) {
    name != "" && forall i :: 0 <= i < |name| ==> IsWordChar(name[i])
  }

  lemma {:induction false} TrimMarksWord(name: string)
    requires IsWord(name)
    ensures TrimMarksLeft(name) == name && TrimMarksRight(name) == name
  {
    assert IsWordChar(name[0]) && IsWordChar(name[|name| - 1]);
  }

  /** Quotes around a name are trimmed off again. */
  lemma {:induction false} TrimMarksQuoted(d: Dialect, name: string)
    requires IsWord(name)
    ensures TrimMarks(Quote(d, name)) == name
  {
    var q := Quote(d, name);
    var close := q[|q| - 1];
    assert q[1..] == name + [close];
    assert IsWordChar(name[0]);
    assert TrimMarksLeft(q) == name + [close];
    assert (name + [close])[..|name|] == name;
    TrimMarksWord(name);
  }

  // ---------------------------------------------------------------- type texts

  /** The shape of every type text: a word, perhaps a parameter, perhaps UNSIGNED. */
  datatype Shape = Shape(base: string, param: Option<nat>, unsigned: bool)

  function ParamText(param: Option<nat>): string {
    match param
    case None => ""
    case Some(n) => "(" + Digits(n) + ")"
  }

  function UnsignedText(unsigned: bool): string {
    if unsigned then " " + "UNSIGNED" else ""
  }

  /** The first word of the type. */
  function FirstWord(s: Shape): string {
    s.base + ParamText(s.param)
  }

  function ShapeText(s: Shape): string {
    FirstWord(s) + UnsignedText(s.unsigned)
  }

  function MySqlShape(ty: GoType, size: int): Shape {
    match ty
    case GoString => if 0 < size <= 255 then Shape("VARCHAR", Some(size), false) else Shape("TEXT", None, false)
    case GoInt => Shape("INT", None, false)
    case GoInt32 => Shape("INT", None, false)
    case GoInt8 => Shape("TINYINT", None, false)
    case GoInt16 => Shape("SMALLINT", None, false)
    case GoInt64 => Shape("BIGINT", None, false)
    case GoUint => Shape("INT", None, true)
    case GoUint32 => Shape("INT", None, true)
    case GoUint8 => Shape("TINYINT", None, true)
    case GoUint16 => Shape("SMALLINT", None, true)
    case GoUint64 => Shape("BIGINT", None, true)
    case GoFloat32 => Shape("FLOAT", None, false)
    case GoFloat64 => Shape("DOUBLE", None, false)
    case GoBool => Shape("TINYINT", Some(1), false)
    case GoTime => Shape("DATETIME", None, false)
    case GoTimePtr => Shape("DATETIME", None, false)
    case GoBytes => Shape("BLOB", None, false)
    case GoRawMessage => Shape("TEXT", None, false)
    case GoOther => Shape("TEXT", None, false)
  }

  function ShapeOf(d: Dialect, ty: GoType, size: int): Shape
    requires d.MySQL? || d.SQLite?
  {
    if d.MySQL? then MySqlShape(ty, size) else Shape(SqliteType(ty), None, false)
  }

  lemma {:induction false} ShapeTexts(base: string, n: nat)
    ensures ShapeText(Shape(base, None, false)) == base
    ensures ShapeText(Shape(base, None, true)) == Unsigned(base)
    ensures ShapeText(Shape(base, Some(n), false)) == Sized(base, n)
  {
    assert base + "" == base;
    assert " " + "UNSIGNED" == " UNSIGNED";
    assert Sized(base, n) + "" == Sized(base, n);
  }

  /** The shape describes the type text that the printer uses. */
  lemma {:induction false} TypeTextIsShape(d: Dialect, ty: GoType, size: int)
    requires d.MySQL? || d.SQLite?
    ensures ShapeText(ShapeOf(d, ty, size)) == TypeText(d, ty, size)
  {
    var s := ShapeOf(d, ty, size);
    ShapeTexts(s.base, if s.param.Some? then s.param.value else 0);
  }

  /** The letter pairs by which the parser tells the modifiers. */
  predicate Telling(a: char, b: char) {
    (a == 'C' && b == 'R') || (a == 'S' && b == 'E') || (a == 'I' && b == 'D') || (a == 'U' && b == 'N')
  }

  /** What the parser relies on in the base word of a type: capitals only, no K, and no telling pair. */
  predicate IsBase(base: string) {
    && base != ""
    && (forall i :: 0 <= i < |base| ==> 'A' <= base[i] <= 'Z' && base[i] != 'K')
    && (forall i :: 0 < i < |base| ==> !Telling(base[i - 1], base[i]))
  }

  lemma {:induction false} ShortBases()
    ensures IsBase("TEXT") && IsBase("INT") && IsBase("REAL") && IsBase("BLOB")
  {
  }

  lemma {:induction false} FloatBase()
    ensures IsBase("FLOAT")
  {
  }

  lemma {:induction false} DoubleBase()
    ensures IsBase("DOUBLE")
  {
  }

  lemma {:induction false} BigintBase()
    ensures IsBase("BIGINT")
  {
  }

  lemma {:induction false} TinyintBase()
    ensures IsBase("TINYINT")
  {
  }

  lemma {:induction false} VarcharBase()
    ensures IsBase("VARCHAR")
  {
  }

  lemma {:induction false} IntegerBase()
    ensures IsBase("INTEGER")
  {
  }

  lemma {:induction false} SmallintBase()
    ensures IsBase("SMALLINT")
  {
  }

  lemma {:induction false} DatetimeBase()
    ensures IsBase("DATETIME")
  {
  }

  lemma {:induction false} BasesAreFit(d: Dialect, ty: GoType, size: int)
    requires d.MySQL? || d.SQLite?
    ensures IsBase(ShapeOf(d, ty, size).base)
    ensures ShapeOf(d, ty, size).param.Some? ==> 0 < ShapeOf(d, ty, size).param.value <= 255
  {
    ShortBases();
    FloatBase();
    DoubleBase();
    BigintBase();
    TinyintBase();
    VarcharBase();
    IntegerBase();
    SmallintBase();
    DatetimeBase();
  }
}
