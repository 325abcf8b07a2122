/** Option and Result types, and the string helpers that the rest of the model leans on. */
module Text {

  datatype Option<+T> = None | Some(value: T)

  datatype Result<+T, +E> = Ok(value: T) | Err(error: E)

  // ---------------------------------------------------------------- white space

  /** The white space characters that Go's strings.TrimSpace removes. */
  predicate IsSpace(c: char) {
    var n := c as int;
    || 9 <= n <= 13 || n == 32 || n == 0x85 || n == 0xA0 || n == 0x1680
    || 0x2000 <= n <= 0x200A || n == 0x2028 || n == 0x2029 || n == 0x202F
    || n == 0x205F || n == 0x3000
  }

  function TrimLeft(s: string): (r: string)
    ensures |r| <= |s| && (r == "" || !IsSpace(r[0]))
    ensures forall c :: c in r ==> c in s
  {
    if s != "" && IsSpace(s[0]) then TrimLeft(s[1..]) else s
  }

  function TrimRight(s: string): (r: string)
    ensures |r| <= |s| && (r == "" || (r[0] == s[0] && !IsSpace(r[|r| - 1])))
    ensures forall c :: c in r ==> c in s
  {
    if s != "" && IsSpace(s[|s| - 1]) then TrimRight(s[..|s| - 1]) else s
  }

  function TrimSpace(s: string): (r: string)
    ensures r == "" || (!IsSpace(r[0]) && !IsSpace(r[|r| - 1]))
    ensures |r| <= |s|
    ensures forall c :: c in r ==> c in s
  {
    var left := TrimLeft(s);
    TrimRight(left)
  }

  /** Within ASCII the white space is blank, tab, line feed, vertical tab, form feed and carriage return. */
  lemma {:induction false} AsciiSpace(c: char, s: string)
    requires (c as int) < 128 && s != "" && Trimmed(s)
    ensures TrimSpace([c] + s) == if c in " \t\n\r\U{000B}\U{000C}" then s else [c] + s
    ensures TrimSpace(s + [c]) == if c in " \t\n\r\U{000B}\U{000C}" then s else s + [c]
  {
    var blanks := " \t\n\r\U{000B}\U{000C}";
    assert IsSpace(c) <==> c in blanks by {
      assert blanks[0] as int == 32 && blanks[1] as int == 9 && blanks[2] as int == 10 && blanks[3] as int == 13;
    }
    if IsSpace(c) {
      TrimPadded([c], s, "");
      TrimPadded("", s, [c]);
      assert [c] + s + "" == [c] + s && "" + s + [c] == s + [c];
    } else {
      TrimFixed([c] + s);
      TrimFixed(s + [c]);
    }
  }

  predicate Trimmed(s: string) {
    s == "" || (!IsSpace(s[0]) && !IsSpace(s[|s| - 1]))
  }

  /** Trimming changes nothing exactly when neither end is white space. */
  lemma {:induction false} TrimFixed(s: string)
    ensures TrimSpace(s) == s <==> Trimmed(s)
  {
  }

  /** Trimming removes white space padding of any length on either side. */
  lemma {:induction false} TrimPadded(pre: string, s: string, post: string)
    requires forall c :: c in pre ==> IsSpace(c)
    requires forall c :: c in post ==> IsSpace(c)
    requires Trimmed(s) && s != ""
    ensures TrimSpace(pre + s + post) == s
  {
    TrimLeftPadded(pre, s + post);
    assert pre + s + post == pre + (s + post);
    TrimRightPadded(s, post);
  }

  lemma {:induction false} Regroup(a: string, b: string, c: string)
    ensures (a + b) + c == a + (b + c)
  {
  }

  lemma {:induction false} AppendTail(a: string, b: string)
    requires a != ""
    ensures (a + b)[0] == a[0] && (a + b)[1..] == a[1..] + b
  {
  }

  lemma {:induction false} TrimLeftPadded(pre: string, s: string)
    requires forall c :: c in pre ==> IsSpace(c)
    requires s != "" && !IsSpace(s[0])
    ensures TrimLeft(pre + s) == s
  {
    if pre == "" {
      assert pre + s == s;
    } else {
      AppendTail(pre, s);
      TrimLeftPadded(pre[1..], s);
    }
  }

  lemma {:induction false} TrimRightPadded(s: string, post: string)
    requires forall c :: c in post ==> IsSpace(c)
    requires s != "" && !IsSpace(s[|s| - 1])
    ensures TrimRight(s + post) == s
    decreases |post|
  {
    if post == "" {
      assert s + post == s;
    } else {
      var init := post[..|post| - 1];
      assert (s + post)[..|s + post| - 1] == s + init;
      TrimRightPadded(s, init);
    }
  }

  lemma {:induction false} TrimBlank(s: string)
    requires forall c :: c in s ==> IsSpace(c)
    ensures TrimSpace(s) == ""
  {
    if s != "" {
      TrimBlank(s[1..]);
    }
  }

  // ---------------------------------------------------------------- split and join

  function Split(s: string, sep: char): (parts: seq<string>)
    ensures |parts| >= 1
  {
    if s == "" then [""]
    else
      var rest := Split(s[1..], sep);
      if s[0] == sep then [""] + rest else [[s[0]] + rest[0]] + rest[1..]
  }

  function Join(parts: seq<string>, sep: string): string {
    if parts == [] then ""
    else if |parts| == 1 then parts[0]
    else parts[0] + sep + Join(parts[1..], sep)
  }

  lemma {:induction false} SplitCons(head: string, rest: string, sep: char)
    requires sep !in head
    ensures Split(head + [sep] + rest, sep) == [head] + Split(rest, sep)
    decreases |head|
  {
    if head == "" {
      assert head + [sep] + rest == [sep] + rest;
      assert ([sep] + rest)[1..] == rest;
    } else {
      var s := head + [sep] + rest;
      assert s[1..] == head[1..] + [sep] + rest;
      SplitCons(head[1..], rest, sep);
      assert [head[0]] + head[1..] == head;
    }
  }

  lemma {:induction false} SplitNone(s: string, sep: char)
    requires sep !in s
    ensures Split(s, sep) == [s]
  {
    if s != "" {
      SplitNone(s[1..], sep);
      assert [s[0]] + s[1..] == s;
    }
  }

  /** Splitting a join gives the pieces back, for pieces that hold no separator. */
  lemma {:induction false} SplitJoin(parts: seq<string>, sep: char)
    requires parts != []
    requires forall p :: p in parts ==> sep !in p
    ensures Split(Join(parts, [sep]), sep) == parts
  {
    if |parts| == 1 {
      SplitNone(parts[0], sep);
    } else {
      var head, rest := parts[0], parts[1..];
      SplitJoin(rest, sep);
      SplitCons(head, Join(rest, [sep]), sep);
      assert parts == [head] + rest;
    }
  }

  /** One more piece at the end of a non-empty join. */
  lemma {:induction false} JoinSnoc(parts: seq<string>, last: string, sep: string)
    requires parts != []
    ensures Join(parts + [last], sep) == Join(parts, sep) + sep + last
  {
    if |parts| == 1 {
      assert (parts + [last])[1..] == [last];
    } else {
      assert (parts + [last])[1..] == parts[1..] + [last];
      JoinSnoc(parts[1..], last, sep);
    }
  }

  lemma {:induction false} JoinChars(parts: seq<string>, sep: string, c: char)
    requires c !in sep
    requires forall p :: p in parts ==> c !in p
    ensures c !in Join(parts, sep)
  {
    if |parts| > 1 {
      JoinChars(parts[1..], sep, c);
    }
  }

  /** Splitting loses only the separators. */
  lemma {:induction false} SplitKeeps(s: string, sep: char, c: char)
    requires c in s && c != sep
    ensures exists i :: 0 <= i < |Split(s, sep)| && c in Split(s, sep)[i]
  {
    var rest := Split(s[1..], sep);
    if s[0] != c {
      SplitKeeps(s[1..], sep, c);
      var i :| 0 <= i < |rest| && c in rest[i];
      if s[0] == sep {
        assert Split(s, sep)[i + 1] == rest[i];
      } else if i == 0 {
        assert c in Split(s, sep)[0];
      } else {
        assert Split(s, sep)[i] == rest[i];
      }
    } else {
      assert c in Split(s, sep)[0];
    }
  }

  /** Trimming loses only white space. */
  lemma {:induction false} TrimKeeps(s: string, c: char)
    requires c in s && !IsSpace(c)
    ensures c in TrimSpace(s)
  {
    TrimLeftKeeps(s, c);
    TrimRightKeeps(TrimLeft(s), c);
  }

  lemma {:induction false} TrimLeftKeeps(s: string, c: char)
    requires c in s && !IsSpace(c)
    ensures c in TrimLeft(s)
  {
    if IsSpace(s[0]) {
      TrimLeftKeeps(s[1..], c);
    }
  }

  lemma {:induction false} TrimRightKeeps(s: string, c: char)
    requires c in s && !IsSpace(c)
    ensures c in TrimRight(s)
  {
    if IsSpace(s[|s| - 1]) {
      TrimRightKeeps(s[..|s| - 1], c);
    }
  }

  // ---------------------------------------------------------------- letter case

  /** Lower-casing, over the ASCII letters. */
  function LowerChar(c: char): char {
    if 'A' <= c <= 'Z' then ((c as int) + 32) as char else c
  }

  function UpperChar(c: char): char {
    if 'a' <= c <= 'z' then ((c as int) - 32) as char else c
  }

  function Lower(s: string): (r: string)
    ensures |r| == |s| && forall i :: 0 <= i < |s| ==> r[i] == LowerChar(s[i])
  {
    seq(|s|, i requires 0 <= i < |s| => LowerChar(s[i]))
  }

  function Upper(s: string): (r: string)
    ensures |r| == |s| && forall i :: 0 <= i < |s| ==> r[i] == UpperChar(s[i])
  {
    seq(|s|, i requires 0 <= i < |s| => UpperChar(s[i]))
  }

  const CAPITALS := "ABCDEFGHIJKLMNOPQRSTUVWXYZ"
  const LETTERS := "abcdefghijklmnopqrstuvwxyz"

  /** Letter case is about the 26 letters and nothing else. */
  lemma {:induction false} LettersFold(k: nat, c: char)
    requires k < 26
    ensures LowerChar(CAPITALS[k]) == LETTERS[k] && UpperChar(LETTERS[k]) == CAPITALS[k]
    ensures c !in CAPITALS ==> LowerChar(c) == c
    ensures c !in LETTERS ==> UpperChar(c) == c
  {
    if 'A' <= c <= 'Z' {
      assert CAPITALS[c as int - 'A' as int] == c;
    }
    if 'a' <= c <= 'z' {
      assert LETTERS[c as int - 'a' as int] == c;
    }
  }

  predicate HasPrefix(s: string, p: string) {
    p <= s
  }

  predicate OccursAt(s: string, sub: string, i: int) {
    0 <= i <= |s| - |sub| && s[i..i + |sub|] == sub
  }

  predicate Contains(s: string, sub: string) {
    exists i :: 0 <= i <= |s| && OccursAt(s, sub, i)
  }

  // ---------------------------------------------------------------- decimal numbers

  predicate IsDigit(c: char) {
    '0' <= c <= '9'
  }

  predicate AllDigits(s: string) {
    forall i :: 0 <= i < |s| ==> IsDigit(s[i])
  }

  function DigitChar(d: nat): (c: char)
    requires d < 10
    ensures IsDigit(c) && c as int - 48 == d
  {
    (48 + d) as char
  }

  function DigitsValue(s: string): nat
    requires AllDigits(s)
  {
    if s == "" then 0
    else 10 * DigitsValue(s[..|s| - 1]) + (s[|s| - 1] as int - 48)
  }

  function Digits(n: nat): (s: string)
    ensures s != "" && AllDigits(s)
    ensures DigitsValue(s) == n
    ensures n > 0 ==> s[0] != '0'
    ensures n < 10 ==> |s| == 1
  {
    if n < 10 then [DigitChar(n)]
    else
      var hi := Digits(n / 10);
      var s := hi + [DigitChar(n % 10)];
      assert s[..|s| - 1] == hi;
      s
  }

  /** strconv.FormatInt in base ten. */
  function FormatInt(n: int): (s: string)
    ensures s != ""
  {
    if n < 0 then "-" + Digits(-n) else Digits(n)
  }

  /** strconv.ParseInt in base ten with no bound: an optional sign and at least one digit. */
  function ParseDecimal(s: string): Option<int> {
    if s == "" then None
    else if s[0] == '-' || s[0] == '+' then
      var body := s[1..];
      if body == "" || !AllDigits(body) then None
      else
        var magnitude: int := DigitsValue(body);
        Some(if s[0] == '-' then -magnitude else magnitude)
    else if AllDigits(s) then Some(DigitsValue(s))
    else None
  }

  /** The numbers that a signed integer of the given width can hold. */
  predicate FitsBits(n: int, bits: nat) {
    if bits == 8 then -0x80 <= n < 0x80
    else if bits == 16 then -0x8000 <= n < 0x8000
    else if bits == 32 then -0x8000_0000 <= n < 0x8000_0000
    else -0x8000_0000_0000_0000 <= n < 0x8000_0000_0000_0000
  }

  function ParseInt(s: string, bits: nat): Option<int> {
    match ParseDecimal(s)
    case None => None
    case Some(n) => if FitsBits(n, bits) then Some(n) else None
  }

  /** strconv.Atoi: a 64-bit integer. */
  function Atoi(s: string): Option<int> {
    ParseInt(s, 64)
  }

  /** Formatting and parsing undo each other within the width. */
  lemma {:induction false} ParseFormatted(n: int, bits: nat)
    ensures ParseDecimal(FormatInt(n)) == Some(n)
    ensures ParseInt(FormatInt(n), bits) == if FitsBits(n, bits) then Some(n) else None
  {
    if n < 0 {
      var s := "-" + Digits(-n);
      assert s[1..] == Digits(-n);
    } else {
      assert IsDigit(Digits(n)[0]);
    }
  }

  function Zeros(n: nat): (r: string)
    ensures |r| == n
  {
    seq(n, i => '0')
  }

  lemma {:induction false} DigitsAfterZeros(zeros: nat, s: string)
    requires AllDigits(s)
    ensures AllDigits(Zeros(zeros) + s) && DigitsValue(Zeros(zeros) + s) == DigitsValue(s)
    decreases zeros + |s|
  {
    var padded := Zeros(zeros) + s;
    if s != "" {
      DigitsAfterZeros(zeros, s[..|s| - 1]);
      assert padded[..|padded| - 1] == Zeros(zeros) + s[..|s| - 1];
    } else if zeros > 0 {
      DigitsAfterZeros(zeros - 1, s);
      assert padded[..|padded| - 1] == Zeros(zeros - 1) + s;
    }
  }

  lemma {:induction false} SignedDigits(digits: string, n: nat)
    requires digits != "" && AllDigits(digits) && DigitsValue(digits) == n
    ensures ParseDecimal(digits) == Some(n)
    ensures ParseDecimal("+" + digits) == Some(n) && ParseDecimal("-" + digits) == Some(0 - n)
  {
    assert IsDigit(digits[0]);
    assert ("+" + digits)[1..] == digits && ("-" + digits)[1..] == digits;
  }

  /** Zeros in front of a number do not matter, and a sign in front of them is the number's sign. */
  lemma {:induction false} PaddedDecimal(zeros: nat, n: nat)
    ensures ParseDecimal(Zeros(zeros) + Digits(n)) == Some(n)
    ensures ParseDecimal("+" + (Zeros(zeros) + Digits(n))) == Some(n)
    ensures ParseDecimal("-" + (Zeros(zeros) + Digits(n))) == Some(0 - n)
  {
    DigitsAfterZeros(zeros, Digits(n));
    SignedDigits(Zeros(zeros) + Digits(n), n);
  }

  function Pow2(n: nat): nat {
    if n == 0 then 1 else 2 * Pow2(n - 1)
  }

  lemma {:induction false} Pow2Sum(a: nat, b: nat)
    ensures Pow2(a + b) == Pow2(a) * Pow2(b)
  {
    if a > 0 {
      Pow2Sum(a - 1, b);
    }
  }

  lemma {:induction false} SmallPowers()
    ensures Pow2(7) == 0x80 && Pow2(8) == 0x100 && Pow2(15) == 0x8000
  {
    assert Pow2(7) == 0x80 && Pow2(8) == 0x100;
    Pow2Sum(7, 8);
  }

  lemma {:induction false} LargePowers()
    ensures Pow2(31) == 0x8000_0000 && Pow2(63) == 0x8000_0000_0000_0000
  {
    SmallPowers();
    Pow2Sum(8, 8);
    Pow2Sum(15, 16);
    Pow2Sum(16, 16);
    Pow2Sum(31, 32);
  }

  /** The range of a signed integer of a given width. */
  lemma {:induction false} WidthIsRange(n: int, bits: nat)
    requires bits in {8, 16, 32, 64}
    ensures FitsBits(n, bits) <==> 0 - Pow2(bits - 1) <= n < Pow2(bits - 1)
  {
    SmallPowers();
    LargePowers();
  }
}
