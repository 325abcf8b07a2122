/** The text after a column's name: type, modifiers, and what the parser's searches find in it. */
module SqlModifiers {
  import opened Text
  import opened SqlScan
  import opened SqlDdl
  import opened SqlTypes
  import opened SqlParse
  import opened SqlColumns

  /** The modifiers of a definition. */
  datatype Mods = Mods(unsigned: bool, key: bool, notNull: bool, auto: bool)

  function KeyText(b: bool): string {
    if b then " " + "PRIMARY KEY" else ""
  }

  function NotNullText(b: bool): string {
    if b then " " + "NOT NULL" else ""
  }

  function AutoText(d: Dialect, b: bool): string {
    if b then " " + AutoIncrementKeyword(d) else ""
  }

  /** Everything after the first word of the type. */
  function Tail(d: Dialect, m: Mods): string {
    UnsignedText(m.unsigned) + KeyText(m.key) + NotNullText(m.notNull) + AutoText(d, m.auto)
  }

  // ---------------------------------------------------------------- words

  lemma {:induction false} FieldsConcat(a: string, b: string)
    requires b == "" || IsSpace(b[0])
    ensures Fields(a + b) == Fields(a) + Fields(b)
    decreases |a|
  {
    if a == "" {
      assert a + b == b;
    } else if IsSpace(a[0]) {
      AppendTail(a, b);
      FieldsConcat(a[1..], b);
    } else {
      var n := FieldLength(a);
      FieldsConcat(a[n..], b);
      assert a == a[..n] + a[n..];
      FieldsAppended(a[..n], a[n..], b, Fields(a[n..]) + Fields(b));
    }
  }

  lemma {:induction false} StartOf(rest: string, b: string)
    requires (rest == "" || IsSpace(rest[0])) && (b == "" || IsSpace(b[0]))
    ensures rest + b == "" || IsSpace((rest + b)[0])
  {
    assert rest == "" ==> rest + b == b;
  }

  lemma {:induction false} FieldsAppended(w: string, rest: string, b: string, tail: seq<string>)
    requires IsField(w) && (rest == "" || IsSpace(rest[0])) && (b == "" || IsSpace(b[0]))
    requires Fields(rest + b) == tail
    ensures Fields(w + rest + b) == [w] + tail
  {
    StartOf(rest, b);
    Regroup(w, rest, b);
    FieldsCons(w, rest + b);
  }

  /** Words behind single spaces. */
  predicate Spaced(t: string) {
    t == "" || (t[0] == ' ' && Fields(t) != [] && " " + Join(Fields(t), " ") == t)
  }

  lemma {:induction false} SpacedWord(w: string)
    requires IsField(w)
    ensures Spaced(" " + w)
  {
    FieldsCons(w, "");
    assert w + "" == w;
    assert (" " + w)[1..] == w;
    assert Fields(" " + w) == [w];
  }

  lemma {:induction false} SpacedConcat(a: string, b: string)
    requires Spaced(a) && Spaced(b)
    ensures Spaced(a + b)
  {
    if a == "" {
      assert a + b == b;
    } else if b == "" {
      assert a + b == a;
    } else {
      FieldsConcat(a, b);
      JoinConcat(Fields(a), Fields(b), " ");
      var ja, jb := Join(Fields(a), " "), Join(Fields(b), " ");
      assert " " + (ja + " " + jb) == (" " + ja) + (" " + jb);
    }
  }

  lemma {:induction false} FirstAndRest(w: string, t: string)
    requires IsField(w) && Spaced(t)
    ensures Fields(w + t) == [w] + Fields(t)
    ensures Join(Fields(w + t), " ") == w + t
  {
    FieldsCons(w, t);
    if t == "" {
      assert w + t == w;
    } else {
      assert ([w] + Fields(t))[1..] == Fields(t);
      assert w + " " + Join(Fields(t), " ") == w + (" " + Join(Fields(t), " "));
    }
  }

  lemma {:induction false} TwoWords(v: string, w: string)
    requires IsField(v) && IsField(w)
    ensures Spaced(" " + (v + " " + w))
  {
    SpacedWord(v);
    SpacedWord(w);
    SpacedConcat(" " + v, " " + w);
    assert (" " + v) + (" " + w) == " " + (v + " " + w);
  }

  lemma {:induction false} UnsignedIsSpaced(b: bool)
    ensures Spaced(UnsignedText(b))
  {
    SpacedWord("UNSIGNED");
  }

  lemma {:induction false} KeyIsSpaced(b: bool)
    ensures Spaced(KeyText(b))
  {
    assert "PRIMARY KEY" == "PRIMARY" + " " + "KEY";
    TwoWords("PRIMARY", "KEY");
  }

  lemma {:induction false} NotNullIsSpaced(b: bool)
    ensures Spaced(NotNullText(b))
  {
    assert "NOT NULL" == "NOT" + " " + "NULL";
    TwoWords("NOT", "NULL");
  }

  lemma {:induction false} SpacedConcats(u: string, k: string, n: string, t: string)
    requires Spaced(u) && Spaced(k) && Spaced(n) && Spaced(t)
    ensures Spaced(u + k + n + t)
  {
    SpacedConcat(u, k);
    SpacedConcat(u + k, n);
    SpacedConcat(u + k + n, t);
  }

  lemma {:induction false} AutoIsSpaced(d: Dialect, b: bool)
    requires d.MySQL? || d.SQLite?
    ensures Spaced(AutoText(d, b))
  {
    SpacedWord(AutoIncrementKeyword(d));
  }

  lemma {:induction false} TailIsSpaced(d: Dialect, m: Mods)
    requires d.MySQL? || d.SQLite?
    ensures Spaced(Tail(d, m))
  {
    UnsignedIsSpaced(m.unsigned);
    KeyIsSpaced(m.key);
    NotNullIsSpaced(m.notNull);
    AutoIsSpaced(d, m.auto);
    SpacedConcats(UnsignedText(m.unsigned), KeyText(m.key), NotNullText(m.notNull), AutoText(d, m.auto));
  }

  // ---------------------------------------------------------------- telling pairs

  predicate Lacks(s: string, a: char, b: char) {
    !HasPair(s, a, b)
  }

  /** Segments that do not start with the second letter of a pair have it only where one of them has it. */
  lemma {:induction false} LacksConcat(s: string, t: string, a: char, b: char)
    requires Lacks(s, a, b) && Lacks(t, a, b) && (t == "" || t[0] != b)
    ensures Lacks(s + t, a, b)
  {
    NoPairConcat(s, t, a, b);
  }

  /** A segment of the text: nothing, or a text behind a space. */
  predicate Behind(t: string) {
    t == "" || t[0] == ' '
  }

  lemma {:induction false} LacksConcats(w: string, u: string, k: string, n: string, t: string, a: char, b: char)
    requires b != ' ' && Behind(u) && Behind(k) && Behind(n) && Behind(t)
    requires Lacks(w, a, b) && Lacks(u, a, b) && Lacks(k, a, b) && Lacks(n, a, b) && Lacks(t, a, b)
    ensures Lacks(w + (u + k + n + t), a, b)
  {
    LacksConcat(u, k, a, b);
    LacksConcat(u + k, n, a, b);
    LacksConcat(u + k + n, t, a, b);
    LacksConcat(w, u + k + n + t, a, b);
  }

  lemma {:induction false} TailLacks(d: Dialect, m: Mods, w: string, a: char, b: char)
    requires b != ' ' && Lacks(w, a, b) && Lacks(UnsignedText(m.unsigned), a, b) && Lacks(KeyText(m.key), a, b)
    requires Lacks(NotNullText(m.notNull), a, b) && Lacks(AutoText(d, m.auto), a, b)
    ensures Lacks(w + Tail(d, m), a, b)
  {
    LacksConcats(w, UnsignedText(m.unsigned), KeyText(m.key), NotNullText(m.notNull), AutoText(d, m.auto), a, b);
  }

  lemma {:induction false} UnsignedLacks(b: bool)
    ensures var s := UnsignedText(b);
            Lacks(s, 'C', 'R') && Lacks(s, 'S', 'E') && Lacks(s, 'I', 'D') && Lacks(s, ' ', 'N')
  {
  }

  lemma {:induction false} KeyLacks(b: bool)
    ensures var s := KeyText(b);
            Lacks(s, 'C', 'R') && Lacks(s, 'S', 'E') && Lacks(s, 'I', 'D') && Lacks(s, ' ', 'N') && Lacks(s, 'U', 'N')
  {
  }

  lemma {:induction false} NotNullLacks(b: bool)
    ensures var s := NotNullText(b);
            Lacks(s, 'C', 'R') && Lacks(s, 'S', 'E') && Lacks(s, 'I', 'D') && Lacks(s, 'U', 'N')
  {
  }

  predicate AutoFit(s: string) {
    Lacks(s, 'S', 'E') && Lacks(s, 'I', 'D') && Lacks(s, ' ', 'N') && Lacks(s, 'U', 'N')
  }

  lemma {:induction false} AutoLacksMySql()
    ensures AutoFit(AutoText(MySQL, true))
  {
  }

  lemma {:induction false} AutoLacksSqlite()
    ensures AutoFit(AutoText(SQLite, true))
  {
  }

  lemma {:induction false} AutoLacks(d: Dialect, b: bool)
    requires d.MySQL? || d.SQLite?
    ensures AutoFit(AutoText(d, b))
  {
    AutoLacksMySql();
    AutoLacksSqlite();
  }

  // ---------------------------------------------------------------- what the searches find

  /** The first word of a type, as far as the searches are concerned. */
  predicate IsTypeWord(w: string) {
    && IsField(w)
    && (forall i :: 0 <= i < |w| ==> !('a' <= w[i] <= 'z') && w[i] != 'K')
    && Lacks(w, 'C', 'R') && Lacks(w, 'S', 'E') && Lacks(w, 'I', 'D') && Lacks(w, 'U', 'N') && Lacks(w, ' ', 'N')
  }

  predicate NoLower(s: string) {
    forall i :: 0 <= i < |s| ==> !('a' <= s[i] <= 'z')
  }

  lemma {:induction false} UpperFixed(s: string)
    requires NoLower(s)
    ensures Upper(s) == s
  {
  }

  lemma {:induction false} NoLowerConcats(u: string, k: string, n: string, t: string)
    requires NoLower(u) && NoLower(k) && NoLower(n) && NoLower(t)
    ensures NoLower(u + k + n + t)
  {
  }

  lemma {:induction false} UnsignedNoLower(b: bool)
    ensures NoLower(UnsignedText(b))
  {
  }

  lemma {:induction false} KeyNoLower(b: bool)
    ensures NoLower(KeyText(b))
  {
  }

  lemma {:induction false} NotNullNoLower(b: bool)
    ensures NoLower(NotNullText(b))
  {
  }

  lemma {:induction false} AutoNoLower(d: Dialect, b: bool)
    requires d.MySQL? || d.SQLite?
    ensures NoLower(AutoText(d, b))
  {
  }

  lemma {:induction false} UpperConcat(w: string, t: string)
    requires NoLower(w) && NoLower(t)
    ensures Upper(w + t) == w + t
  {
  }

  lemma {:induction false} UpperRest(d: Dialect, m: Mods, w: string)
    requires (d.MySQL? || d.SQLite?) && IsTypeWord(w)
    ensures Upper(w + Tail(d, m)) == w + Tail(d, m)
  {
    UnsignedNoLower(m.unsigned);
    KeyNoLower(m.key);
    NotNullNoLower(m.notNull);
    AutoNoLower(d, m.auto);
    NoLowerConcats(UnsignedText(m.unsigned), KeyText(m.key), NotNullText(m.notNull), AutoText(d, m.auto));
    UpperConcat(w, Tail(d, m));
  }

  lemma {:induction false} NoKeyLetter(d: Dialect, b: bool)
    requires d.MySQL? || d.SQLite?
    ensures 'K' !in UnsignedText(b) && 'K' !in NotNullText(b) && 'K' !in AutoText(d, b)
  {
  }

  lemma {:induction false} NotInConcats(w: string, u: string, n: string, t: string, c: char)
    requires c !in w && c !in u && c !in n && c !in t
    ensures c !in w + (u + "" + n + t)
  {
  }

  /** A text behind a space is found, whatever stands around it. */
  lemma {:induction false} ContainsSegment(w: string, u: string, k: string, n: string, t: string, sub: string)
    requires u == " " + sub || k == " " + sub || n == " " + sub || t == " " + sub
    ensures Contains(w + (u + k + n + t), sub)
  {
    if u == " " + sub {
      ContainsAround(w, "", sub, k + n + t);
      assert "" + (" " + sub) + (k + n + t) == u + k + n + t;
    } else if k == " " + sub {
      ContainsAround(w, u, sub, n + t);
      assert u + (" " + sub) + (n + t) == u + k + n + t;
    } else if n == " " + sub {
      ContainsAround(w, u + k, sub, t);
      assert u + k + (" " + sub) + t == u + k + n + t;
    } else {
      ContainsAround(w, u + k + n, sub, "");
      assert u + k + n + (" " + sub) + "" == u + k + n + t;
    }
  }

  lemma {:induction false} ContainsAround(w: string, a: string, sub: string, b: string)
    ensures Contains(w + (a + (" " + sub) + b), sub)
  {
    ContainsMiddle(w + a + " ", sub, b);
    assert w + a + " " + sub + b == w + (a + (" " + sub) + b);
  }

  lemma {:induction false} FindsKey(d: Dialect, m: Mods, w: string)
    requires (d.MySQL? || d.SQLite?) && IsTypeWord(w)
    ensures Contains(w + Tail(d, m), "PRIMARY KEY") <==> m.key
  {
    var u, k, n, t := UnsignedText(m.unsigned), KeyText(m.key), NotNullText(m.notNull), AutoText(d, m.auto);
    if m.key {
      ContainsSegment(w, u, k, n, t, "PRIMARY KEY");
    } else {
      NoKeyLetter(d, m.unsigned);
      NoKeyLetter(d, m.notNull);
      NoKeyLetter(d, m.auto);
      NotInConcats(w, u, n, t, 'K');
      KeyHasLetter(w + Tail(d, m));
    }
  }

  lemma {:induction false} KeyHasLetter(s: string)
    ensures Contains(s, "PRIMARY KEY") ==> 'K' in s
  {
    assert "PRIMARY KEY"[8] == 'K';
    ContainsHasChar(s, "PRIMARY KEY", 'K');
  }

  lemma {:induction false} FindsNotNull(d: Dialect, m: Mods, w: string)
    requires (d.MySQL? || d.SQLite?) && IsTypeWord(w)
    ensures Contains(w + Tail(d, m), "NOT NULL") <==> m.notNull
  {
    if m.notNull {
      ContainsSegment(w, UnsignedText(m.unsigned), KeyText(m.key), NotNullText(m.notNull), AutoText(d, m.auto),
                      "NOT NULL");
    } else {
      UnsignedLacks(m.unsigned);
      KeyLacks(m.key);
      AutoLacks(d, m.auto);
      TailLacks(d, m, w, ' ', 'N');
      PairsFound(w + Tail(d, m));
    }
  }

  lemma {:induction false} PairsFound(s: string)
    ensures Contains(s, "NOT NULL") ==> HasPair(s, ' ', 'N')
    ensures Contains(s, "UNSIGNED") ==> HasPair(s, 'U', 'N')
  {
    ContainsHasPair(s, "NOT NULL", 3);
    ContainsHasPair(s, "UNSIGNED", 0);
  }

  lemma {:induction false} FindsUnsigned(d: Dialect, m: Mods, w: string)
    requires (d.MySQL? || d.SQLite?) && IsTypeWord(w)
    ensures Contains(w + Tail(d, m), "UNSIGNED") <==> m.unsigned
  {
    if m.unsigned {
      ContainsSegment(w, UnsignedText(m.unsigned), KeyText(m.key), NotNullText(m.notNull), AutoText(d, m.auto),
                      "UNSIGNED");
    } else {
      KeyLacks(m.key);
      NotNullLacks(m.notNull);
      AutoLacks(d, m.auto);
      TailLacks(d, m, w, 'U', 'N');
      PairsFound(w + Tail(d, m));
    }
  }

  lemma {:induction false} FindsAuto(d: Dialect, m: Mods, w: string)
    requires (d.MySQL? || d.SQLite?) && IsTypeWord(w)
    ensures HasAutoIncrement(w + Tail(d, m)) <==> m.auto
  {
    if m.auto {
      ContainsSegment(w, UnsignedText(m.unsigned), KeyText(m.key), NotNullText(m.notNull), AutoText(d, m.auto),
                      AutoIncrementKeyword(d));
    } else {
      UnsignedLacks(m.unsigned);
      KeyLacks(m.key);
      NotNullLacks(m.notNull);
      TailLacks(d, m, w, 'C', 'R');
      TailLacks(d, m, w, 'S', 'E');
      TailLacks(d, m, w, 'I', 'D');
      AutoHasPairs(w + Tail(d, m));
    }
  }

  lemma {:induction false} AutoHasPairs(s: string)
    ensures HasAutoIncrement(s) ==> HasPair(s, 'C', 'R') || HasPair(s, 'S', 'E') || HasPair(s, 'I', 'D')
  {
    ContainsHasPair(s, "AUTO_INCREMENT", 7);
    ContainsHasPair(s, "AUTOINCREMENT", 6);
    ContainsHasPair(s, "SERIAL", 0);
    ContainsHasPair(s, "IDENTITY", 0);
  }
}
