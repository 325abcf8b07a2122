/** The ${NAME} and ${NAME:default} placeholders of a configuration value. */
module Placeholders {
  import opened Text

  type Env = map<string, string>

  /** os.Getenv: an unset variable reads as the empty string. */
  function Getenv(env: Env, name: string): string {
    if name in env then env[name] else ""
  }

  // ---------------------------------------------------------------- the YAML writer's pattern

  /** The pattern "${", one or more characters other than '}', then '}', matched from i up to the '}' at j. */
  predicate PlaceholderBetween(s: string, i: int, j: int) {
    && 0 <= i && i + 2 < j < |s|
    && s[i] == '$' && s[i + 1] == '{' && s[j] == '}'
    && '}' !in s[i + 2..j]
  }

  /** Some part of the text is a placeholder, as the YAML writer sees it. */
  predicate HasPlaceholder(s: string) {
    exists i, j :: 0 <= i < |s| && 0 <= j < |s| && PlaceholderBetween(s, i, j)
  }

  /** The writer leaves a text alone exactly if it is some text, "${", at least one character other than '}', '}' and
      some text. */
  lemma {:induction false} ManagedExactly(s: string)
    ensures HasPlaceholder(s) <==>
            exists before, body, after :: '}' !in body && body != "" && s == Around(before, body, after)
  {
    if HasPlaceholder(s) {
      var i, j :| 0 <= i < |s| && 0 <= j < |s| && PlaceholderBetween(s, i, j);
      assert s == Around(s[..i], s[i + 2..j], s[j + 1..]);
    }
    if before, body, after :| '}' !in body && body != "" && s == Around(before, body, after) {
      var i, j := |before|, |before| + 2 + |body|;
      assert s[i + 2..j] == body;
      assert PlaceholderBetween(s, i, j);
    }
  }

  function Around(before: string, body: string, after: string): string {
    before + "${" + body + "}" + after
  }

  // ---------------------------------------------------------------- the loader's pattern

  datatype Token = Token(name: string, default: string, length: nat)

  /** The length of the longest prefix that holds none of the stop characters. */
  function Span(s: string, stop: set<char>): (n: nat)
    ensures n <= |s|
    ensures forall i :: 0 <= i < n ==> s[i] !in stop
    ensures n < |s| ==> s[n] in stop
  {
    if s == "" || s[0] in stop then 0 else 1 + Span(s[1..], stop)
  }

  /** The loader's pattern, matched at the start of the text. */
  function TokenAt(s: string): (t: Option<Token>)
    ensures t.Some? ==> 3 < t.value.length <= |s|
  {
    if |s| < 2 || s[0] != '$' || s[1] != '{' then None
    else
      var n := Span(s[2..], {'}', ':'});
      if n == 0 || 2 + n == |s| then None
      else if s[2 + n] == '}' then Some(Token(s[2..2 + n], "", n + 3))
      else
        var d := Span(s[3 + n..], {'}'});
        if 3 + n + d == |s| then None
        else Some(Token(s[2..2 + n], s[3 + n..3 + n + d], n + d + 4))
  }

  /** What a placeholder stands for: the variable if it may be read and is not empty, else the default. */
  function TokenValue(t: Token, env: Env, useEnvironment: bool): string {
    if useEnvironment && Getenv(env, t.name) != "" then Getenv(env, t.name) else t.default
  }

  /** Every placeholder replaced, left to right, inserted text never read again. */
  function Substitute(s: string, env: Env, useEnvironment: bool): string {
    if s == "" then ""
    else
      match TokenAt(s)
      case None => [s[0]] + Substitute(s[1..], env, useEnvironment)
      case Some(t) => TokenValue(t, env, useEnvironment) + Substitute(s[t.length..], env, useEnvironment)
  }

  /** No placeholder begins anywhere in the text. */
  ghost predicate Plain(s: string) {
    forall i :: 0 <= i < |s| ==> TokenAt(s[i..]) == None
  }

  lemma {:induction false} PlainTail(s: string)
    requires Plain(s) && s != ""
    ensures Plain(s[1..])
  {
    forall i | 0 <= i < |s[1..]|
      ensures TokenAt(s[1..][i..]) == None
    {
      assert s[1..][i..] == s[i + 1..];
    }
  }

  lemma {:induction false} SpanLocal(s: string, n: nat, stop: set<char>)
    requires n <= |s| && Span(s[..n], stop) < n
    ensures Span(s, stop) == Span(s[..n], stop)
    decreases |s|
  {
    if s[0] !in stop {
      assert s[..n][1..] == s[1..][..n - 1];
      SpanLocal(s[1..], n - 1, stop);
    }
  }

  /** A placeholder is one whatever follows it. */
  lemma {:induction false} TokenLocal(s: string, n: nat)
    requires n <= |s| && TokenAt(s[..n]).Some?
    ensures TokenAt(s).Some?
  {
    var u := s[..n];
    assert u[2..] == s[2..][..n - 2];
    SpanLocal(s[2..], n - 2, {'}', ':'});
    var k := Span(s[2..], {'}', ':'});
    if s[2 + k] != '}' {
      assert u[3 + k..] == s[3 + k..][..n - 3 - k];
      SpanLocal(s[3 + k..], n - 3 - k, {'}'});
    }
  }

  lemma {:induction false} PlainInit(s: string, init: string)
    requires Plain(s) && s != "" && init == s[..|s| - 1]
    ensures Plain(init)
  {
    forall i | 0 <= i < |init| ensures TokenAt(init[i..]) == None {
      assert init[i..] == s[i..][..|init| - i];
      if TokenAt(init[i..]).Some? {
        TokenLocal(s[i..], |init| - i);
      }
    }
  }

  lemma {:induction false} PlainTrimLeft(s: string)
    requires Plain(s)
    ensures Plain(TrimLeft(s))
  {
    if s != "" && IsSpace(s[0]) {
      PlainTail(s);
      PlainTrimLeft(s[1..]);
    }
  }

  lemma {:induction false} PlainTrimRight(s: string)
    requires Plain(s)
    ensures Plain(TrimRight(s))
  {
    if s != "" && IsSpace(s[|s| - 1]) {
      var init := s[..|s| - 1];
      PlainInit(s, init);
      PlainTrimRight(init);
    }
  }

  lemma {:induction false} PlainTrim(s: string)
    requires Plain(s)
    ensures Plain(TrimSpace(s))
  {
    PlainTrimLeft(s);
    PlainTrimRight(TrimLeft(s));
  }

  /** A plain text loads as itself, in every environment. */
  lemma {:induction false} SubstitutePlain(s: string, env: Env, useEnvironment: bool)
    requires Plain(s)
    ensures Substitute(s, env, useEnvironment) == s
  {
    if s != "" {
      assert s[0..] == s;
      PlainTail(s);
      SubstitutePlain(s[1..], env, useEnvironment);
    }
  }

  /** With the environment shut out, the result does not depend on it. */
  lemma {:induction false} SubstituteWithoutEnvironment(s: string, env: Env, env': Env)
    ensures Substitute(s, env, false) == Substitute(s, env', false)
  {
    if s != "" {
      match TokenAt(s)
      case None => SubstituteWithoutEnvironment(s[1..], env, env');
      case Some(t) => SubstituteWithoutEnvironment(s[t.length..], env, env');
    }
  }

  /** A default is shorter than the placeholder around it, so substitution from defaults never lengthens. */
  lemma {:induction false} SubstituteDefaultsShrinks(s: string, env: Env)
    ensures |Substitute(s, env, false)| <= |s|
    ensures !Plain(s) ==> |Substitute(s, env, false)| < |s|
  {
    if s != "" {
      assert s[0..] == s;
      match TokenAt(s)
      case None =>
        SubstituteDefaultsShrinks(s[1..], env);
        if Plain(s[1..]) {
          forall i | 0 <= i < |s| ensures TokenAt(s[i..]) == None {
            if i > 0 {
              assert s[i..] == s[1..][i - 1..];
            }
          }
        }
      case Some(t) =>
        TokenDefaultShorter(s);
        SubstituteDefaultsShrinks(s[t.length..], env);
    }
  }

  lemma TokenDefaultShorter(s: string)
    requires TokenAt(s).Some?
    ensures |TokenAt(s).value.default| < TokenAt(s).value.length
  {
  }

  /** From defaults alone, exactly the plain texts load as themselves. */
  lemma DefaultsFixExactlyPlain(s: string, env: Env)
    ensures Substitute(s, env, false) == s <==> Plain(s)
  {
    SubstituteDefaultsShrinks(s, env);
    if Plain(s) {
      SubstitutePlain(s, env, false);
    }
  }

  /** Whatever the loader would replace, the writer recognises as a placeholder. */
  lemma UnmanagedIsPlain(s: string)
    requires !HasPlaceholder(s)
    ensures Plain(s)
  {
    forall i | 0 <= i < |s|
      ensures TokenAt(s[i..]) == None
    {
      var u := s[i..];
      if TokenAt(u).Some? {
        var j := TokenAt(u).value.length - 1;
        assert PlaceholderBetween(u, 0, j) by {
          TokenShape(u);
        }
        assert u[2..j] == s[i + 2..i + j];
        assert PlaceholderBetween(s, i, i + j);
        assert false;
      }
    }
  }

  lemma TokenShape(s: string)
    requires TokenAt(s).Some?
    ensures PlaceholderBetween(s, 0, TokenAt(s).value.length - 1)
  {
    var n := Span(s[2..], {'}', ':'});
    if s[2 + n] != '}' {
      var d := Span(s[3 + n..], {'}'});
      forall k | 2 <= k < 3 + n + d
        ensures s[k] != '}'
      {
        if k < 2 + n {
          assert s[k] == s[2..][k - 2];
        } else if k > 2 + n {
          assert s[k] == s[3 + n..][k - 3 - n];
        }
      }
    } else {
      forall k | 2 <= k < 2 + n
        ensures s[k] != '}'
      {
        assert s[k] == s[2..][k - 2];
      }
    }
  }

  /** A text without '$' is plain. */
  lemma NoDollarIsPlain(s: string)
    requires '$' !in s
    ensures Plain(s)
  {
  }

  // ---------------------------------------------------------------- what the environment can change

  lemma {:induction false} PlainFromTail(s: string)
    requires s != "" && TokenAt(s) == None && Plain(s[1..])
    ensures Plain(s)
  {
    forall i | 0 <= i < |s| ensures TokenAt(s[i..]) == None {
      if i == 0 {
        assert s[0..] == s;
      } else {
        assert s[i..] == s[1..][i - 1..];
      }
    }
  }

  /** A variable with a long value never shortens a text. */
  lemma {:induction false} LongValueLengthens(s: string, name: string, v: string)
    requires |v| > |s|
    ensures |Substitute(s, map[name := v], true)| >= |Substitute(s, map[], true)|
    decreases |s|
  {
    if s != "" {
      match TokenAt(s)
      case None => LongValueLengthens(s[1..], name, v);
      case Some(t) =>
        TokenDefaultShorter(s);
        LongValueLengthens(s[t.length..], name, v);
    }
  }

  /** A text with a placeholder depends on some variable: the one that its first placeholder names. */
  lemma {:induction false} PlaceholderDepends(s: string, v: string) returns (name: string)
    requires !Plain(s) && |v| > |s|
    ensures |Substitute(s, map[name := v], true)| > |Substitute(s, map[], true)|
    decreases |s|
  {
    match TokenAt(s)
    case None =>
      if Plain(s[1..]) {
        PlainFromTail(s);
      }
      name := PlaceholderDepends(s[1..], v);
    case Some(t) =>
      name := t.name;
      TokenDefaultShorter(s);
      LongValueLengthens(s[t.length..], name, v);
  }

  // ---------------------------------------------------------------- what a placeholder stands for

  /** The text of a placeholder: a name, and perhaps a default behind a colon. */
  function HoleText(name: string, default: Option<string>): string {
    "${" + name + (if default.Some? then ":" + default.value else "") + "}"
  }

  /** A name is not empty and holds neither '}' nor ':'; a default holds no '}'. */
  predicate IsHole(name: string, default: Option<string>) {
    name != "" && '}' !in name && ':' !in name && (default.Some? ==> '}' !in default.value)
  }

  lemma {:induction false} SpanIs(a: string, rest: string, stop: set<char>)
    requires forall c :: c in a ==> c !in stop
    requires rest != "" && rest[0] in stop
    ensures Span(a + rest, stop) == |a|
  {
    if a == "" {
      assert a + rest == rest;
    } else {
      AppendTail(a, rest);
      SpanIs(a[1..], rest, stop);
    }
  }

  lemma {:induction false} NamedToken(name: string, rest: string)
    requires IsHole(name, None)
    ensures TokenAt("${" + name + "}" + rest) == Some(Token(name, "", |name| + 3))
  {
    var s := "${" + name + "}" + rest;
    assert s[2..] == name + ("}" + rest);
    SpanIs(name, "}" + rest, {'}', ':'});
    assert s[2..2 + |name|] == name;
  }

  lemma {:induction false} DefaultedToken(name: string, default: string, rest: string)
    requires IsHole(name, Some(default))
    ensures TokenAt("${" + name + ":" + default + "}" + rest) == Some(Token(name, default, |name| + |default| + 4))
  {
    var s, n := "${" + name + ":" + default + "}" + rest, |name|;
    assert s[2..] == name + (":" + default + "}" + rest);
    SpanIs(name, ":" + default + "}" + rest, {'}', ':'});
    assert s[2..2 + n] == name;
    assert s[3 + n..] == default + ("}" + rest);
    SpanIs(default, "}" + rest, {'}'});
    assert s[3 + n..3 + n + |default|] == default;
  }

  /** A placeholder with a default: the variable if it may be read, is set and is not empty, and the default otherwise.
      The text after it is substituted on its own. */
  lemma {:induction false} DefaultedHole(name: string, default: string, rest: string, env: Env, useEnvironment: bool)
    requires name != "" && '}' !in name && ':' !in name && '}' !in default
    ensures Substitute("${" + name + ":" + default + "}" + rest, env, useEnvironment) ==
            (if useEnvironment && name in env && env[name] != "" then env[name] else default) +
              Substitute(rest, env, useEnvironment)
  {
    var s := "${" + name + ":" + default + "}" + rest;
    DefaultedToken(name, default, rest);
    assert s[|name| + |default| + 4..] == rest;
  }

  /** A placeholder without a default stands for nothing if the variable is not to be had. */
  lemma {:induction false} NamedHole(name: string, rest: string, env: Env, useEnvironment: bool)
    requires name != "" && '}' !in name && ':' !in name
    ensures Substitute("${" + name + "}" + rest, env, useEnvironment) ==
            (if useEnvironment && name in env && env[name] != "" then env[name] else "") +
              Substitute(rest, env, useEnvironment)
  {
    var s := "${" + name + "}" + rest;
    NamedToken(name, rest);
    assert s[|name| + 3..] == rest;
  }

  /** Text in front of the first dollar sign passes unchanged. */
  lemma {:induction false} SubstituteAfter(front: string, rest: string, env: Env, useEnvironment: bool)
    requires '$' !in front
    ensures Substitute(front + rest, env, useEnvironment) == front + Substitute(rest, env, useEnvironment)
  {
    if front == "" {
      assert front + rest == rest;
    } else {
      AppendTail(front, rest);
      SubstituteAfter(front[1..], rest, env, useEnvironment);
    }
  }

  /** The text of a placeholder, wherever it begins. */
  ghost predicate HoleAt(s: string, i: nat, name: string, default: Option<string>) {
    i <= |s| && IsHole(name, default) && HoleText(name, default) <= s[i..]
  }

  lemma {:induction false} SpanHasNone(s: string, stop: set<char>, c: char)
    requires c in stop
    ensures c !in s[..Span(s, stop)]
  {
  }

  lemma {:induction false} NamedTokenIsHole(s: string, n: nat)
    requires TokenAt(s).Some? && n == Span(s[2..], {'}', ':'}) && s[2 + n] == '}'
    ensures HoleAt(s, 0, TokenAt(s).value.name, None)
  {
    var name := s[2..][..n];
    assert s[0..] == s && s[..2] == "${" && name == s[2..2 + n];
    SpanHasNone(s[2..], {'}', ':'}, '}');
    SpanHasNone(s[2..], {'}', ':'}, ':');
    assert HoleText(name, None) == s[..n + 3];
  }

  lemma {:induction false} TokenParts(s: string, n: nat, d: nat)
    requires TokenAt(s).Some? && n == Span(s[2..], {'}', ':'}) && s[2 + n] != '}' && d == Span(s[3 + n..], {'}'})
    ensures s[0] == '$' && s[1] == '{' && n > 0 && s[2 + n] == ':' && 3 + n + d < |s| && s[3 + n + d] == '}'
    ensures TokenAt(s).value.name == s[2..2 + n] && TokenAt(s).value.default == s[3 + n..3 + n + d]
  {
  }

  lemma {:induction false} FiveParts(s: string, n: nat, d: nat)
    requires 3 + n + d < |s| && s[0] == '$' && s[1] == '{' && s[2 + n] == ':' && s[3 + n + d] == '}'
    ensures HoleText(s[2..2 + n], Some(s[3 + n..3 + n + d])) == s[..4 + n + d]
  {
    assert s[..2] == "${";
    assert s[..2 + n] == "${" + s[2..2 + n];
    assert s[2 + n..3 + n + d] == ":" + s[3 + n..3 + n + d];
    assert s[..3 + n + d] == s[..2 + n] + s[2 + n..3 + n + d];
    assert s[..4 + n + d] == s[..3 + n + d] + "}";
  }

  lemma {:induction false} DefaultedTokenIsHole(s: string, n: nat, d: nat)
    requires TokenAt(s).Some? && n == Span(s[2..], {'}', ':'}) && s[2 + n] != '}' && d == Span(s[3 + n..], {'}'})
    ensures HoleAt(s, 0, TokenAt(s).value.name, Some(TokenAt(s).value.default))
  {
    TokenParts(s, n, d);
    FiveParts(s, n, d);
    SpanHasNone(s[2..], {'}', ':'}, '}');
    SpanHasNone(s[2..], {'}', ':'}, ':');
    SpanHasNone(s[3 + n..], {'}'}, '}');
    assert s[0..] == s && s[2..][..n] == s[2..2 + n] && s[3 + n..][..d] == s[3 + n..3 + n + d];
  }

  lemma {:induction false} TokenIsHole(s: string) returns (default: Option<string>)
    requires TokenAt(s).Some?
    ensures HoleAt(s, 0, TokenAt(s).value.name, default)
  {
    var n := Span(s[2..], {'}', ':'});
    if s[2 + n] == '}' {
      default := None;
      NamedTokenIsHole(s, n);
    } else {
      default := Some(TokenAt(s).value.default);
      DefaultedTokenIsHole(s, n, Span(s[3 + n..], {'}'}));
    }
  }

  lemma {:induction false} HoleIsToken(s: string, name: string, default: Option<string>)
    requires IsHole(name, default) && HoleText(name, default) <= s
    ensures TokenAt(s).Some?
  {
    var hole := HoleText(name, default);
    var rest := s[|hole|..];
    assert s == hole + rest;
    match default
    case None =>
      assert hole == "${" + name + "}";
      NamedToken(name, rest);
    case Some(d) =>
      assert hole == "${" + name + ":" + d + "}";
      assert s == "${" + name + ":" + d + "}" + rest;
      DefaultedToken(name, d, rest);
  }

  /** A text loads as itself, as far as the loader can tell, exactly if no placeholder begins anywhere in it. */
  lemma {:induction false} PlainExactly(s: string)
    ensures Plain(s) <==> forall i: nat, name, default :: !HoleAt(s, i, name, default)
  {
    forall i: nat, name, default | HoleAt(s, i, name, default) ensures i < |s| && TokenAt(s[i..]).Some? {
      HoleIsToken(s[i..], name, default);
    }
    forall i | 0 <= i < |s| && TokenAt(s[i..]).Some? ensures exists name, default :: HoleAt(s, i, name, default) {
      var default := TokenIsHole(s[i..]);
      assert s[i..][0..] == s[i..];
      assert HoleAt(s, i, TokenAt(s[i..]).value.name, default);
    }
  }
}
