/** Prepared answers to prompts: command-line arguments that carry them, and the choice among wildcard patterns. */
module PromptAnswers {
  import opened Text

  // ---------------------------------------------------------------- the order of patterns

  /** Lexicographic order of strings. */
  predicate Less(a: string, b: string) {
    b != "" && (a == "" || a[0] < b[0] || (a[0] == b[0] && Less(a[1..], b[1..])))
  }

  lemma {:induction false} LessIsTotal(a: string, b: string)
    ensures a == b || Less(a, b) || Less(b, a)
    ensures !(Less(a, b) && Less(b, a)) && !Less(a, a)
  {
    if a != "" && b != "" {
      LessIsTotal(a[1..], b[1..]);
      assert a == [a[0]] + a[1..] && b == [b[0]] + b[1..];
    }
    if a != "" {
      LessIsIrreflexive(a);
    }
  }

  lemma {:induction false} LessIsIrreflexive(a: string)
    ensures !Less(a, a)
  {
    if a != "" {
      LessIsIrreflexive(a[1..]);
    }
  }

  lemma {:induction false} LessIsTransitive(a: string, b: string, c: string)
    requires Less(a, b) && Less(b, c)
    ensures Less(a, c)
  {
    if a != "" && a[0] == b[0] && b[0] == c[0] {
      LessIsTransitive(a[1..], b[1..], c[1..]);
    }
  }

  predicate IsWildcard(c: char) {
    c == '*' || c == '?' || c == '[' || c == ']'
  }

  /** wildcardPatternRank. */
  datatype Rank = Rank(literals: nat, wildcards: nat)

  function RankOf(pattern: string): Rank {
    if pattern == "" then Rank(0, 0)
    else
      var r := RankOf(pattern[..|pattern| - 1]);
      if IsWildcard(pattern[|pattern| - 1]) then r.(wildcards := r.wildcards + 1) else r.(literals := r.literals + 1)
  }

  method WildcardPatternRank(pattern: string) returns (rank: Rank)
    ensures rank == RankOf(pattern)
    ensures rank.literals + rank.wildcards == |pattern|
  {
    rank := Rank(0, 0);
    for i := 0 to |pattern|
      invariant rank == RankOf(pattern[..i])
      invariant rank.literals + rank.wildcards == i
    {
      assert pattern[..i + 1][..i] == pattern[..i];
      if IsWildcard(pattern[i]) {
        rank := rank.(wildcards := rank.wildcards + 1);
      } else {
        rank := rank.(literals := rank.literals + 1);
      }
    }
    assert pattern[..|pattern|] == pattern;
  }

  /** The comparison of the sort: more literal characters first, then fewer wildcards, then the text. */
  predicate Before(a: string, b: string) {
    var left, right := RankOf(a), RankOf(b);
    if left.literals == right.literals then
      if left.wildcards == right.wildcards then Less(a, b) else left.wildcards < right.wildcards
    else left.literals > right.literals
  }

  /** The comparison is a strict total order. */
  lemma BeforeIsStrictTotal(a: string, b: string, c: string)
    ensures !Before(a, a)
    ensures Before(a, b) && Before(b, c) ==> Before(a, c)
    ensures a == b || Before(a, b) || Before(b, a)
    ensures !(Before(a, b) && Before(b, a))
  {
    LessIsTotal(a, b);
    LessIsIrreflexive(a);
    if Less(a, b) && Less(b, c) {
      LessIsTransitive(a, b, c);
    }
  }

  /** The places of a pattern that hold something else than a wildcard character, and those that hold one. */
  function LiteralPlaces(pattern: string): set<int> {
    set i | 0 <= i < |pattern| && pattern[i] !in {'*', '?', '[', ']'}
  }

  function WildcardPlaces(pattern: string): set<int> {
    set i | 0 <= i < |pattern| && pattern[i] in {'*', '?', '[', ']'}
  }

  lemma {:induction false} PlacesSnoc(pattern: string, init: string, n: nat)
    requires pattern != "" && n == |pattern| - 1 && init == pattern[..n]
    ensures LiteralPlaces(pattern) == LiteralPlaces(init) + if pattern[n] in {'*', '?', '[', ']'} then {} else {n}
    ensures WildcardPlaces(pattern) == WildcardPlaces(init) + if pattern[n] in {'*', '?', '[', ']'} then {n} else {}
    ensures n !in LiteralPlaces(init) && n !in WildcardPlaces(init)
  {
    forall i | 0 <= i < n ensures init[i] == pattern[i] {
    }
  }

  lemma {:induction false} PlacesAreCounted(pattern: string)
    ensures RankOf(pattern) == Rank(|LiteralPlaces(pattern)|, |WildcardPlaces(pattern)|)
  {
    if pattern == "" {
      assert LiteralPlaces(pattern) == {} && WildcardPlaces(pattern) == {};
    } else {
      var n := |pattern| - 1;
      PlacesAreCounted(pattern[..n]);
      PlacesSnoc(pattern, pattern[..n], n);
    }
  }

  /** Where two texts part, after that many characters: one ends there, or has the smaller character. */
  predicate PartAt(a: string, b: string, n: nat) {
    && n <= |a| && n < |b| && a[..n] == b[..n]
    && (n == |a| || a[n] < b[n])
  }

  lemma {:induction false} LessPartsAt(a: string, b: string) returns (n: nat)
    requires Less(a, b)
    ensures PartAt(a, b, n)
  {
    if a == "" || a[0] < b[0] {
      n := 0;
    } else {
      var m := LessPartsAt(a[1..], b[1..]);
      n := m + 1;
      assert a[..n] == [a[0]] + a[1..][..m] && b[..n] == [b[0]] + b[1..][..m];
    }
  }

  lemma {:induction false} PartedIsLess(a: string, b: string, n: nat)
    requires PartAt(a, b, n)
    ensures Less(a, b)
  {
    if n > 0 {
      assert a[..n][0] == b[..n][0];
      assert a[1..][..n - 1] == a[..n][1..] && b[1..][..n - 1] == b[..n][1..];
      PartedIsLess(a[1..], b[1..], n - 1);
    }
  }

  /** The better of two patterns has more characters that are no wildcards; with equally many, fewer that are; and
      with equally many of both, it comes first where the texts part. */
  ghost predicate Outranks(p: string, q: string) {
    || |LiteralPlaces(p)| > |LiteralPlaces(q)|
    || (&& |LiteralPlaces(p)| == |LiteralPlaces(q)|
        && (|| |WildcardPlaces(p)| < |WildcardPlaces(q)|
            || (|WildcardPlaces(p)| == |WildcardPlaces(q)| && exists n :: PartAt(p, q, n))))
  }

  lemma {:induction false} BeforeIsOutranking(p: string, q: string)
    ensures Before(p, q) <==> Outranks(p, q)
  {
    PlacesAreCounted(p);
    PlacesAreCounted(q);
    if Less(p, q) {
      var n := LessPartsAt(p, q);
    }
    if n :| PartAt(p, q, n) {
      PartedIsLess(p, q, n);
    }
  }

  // ---------------------------------------------------------------- sorting

  predicate Sorted(ps: seq<string>) {
    forall i, j :: 0 <= i < j < |ps| ==> !Before(ps[j], ps[i])
  }

  /** The pattern goes behind all that it does not come before. */
  function Insert(p: string, ps: seq<string>): seq<string> {
    if ps == [] || Before(p, ps[0]) then [p] + ps else [ps[0]] + Insert(p, ps[1..])
  }

  /** sort.SliceStable with the comparison. */
  function Sort(ps: seq<string>): seq<string> {
    if ps == [] then [] else Insert(ps[|ps| - 1], Sort(ps[..|ps| - 1]))
  }

  lemma {:induction false} SortedCons(p: string, ps: seq<string>)
    requires Sorted(ps) && forall q :: q in ps ==> !Before(q, p)
    ensures Sorted([p] + ps)
  {
    var r := [p] + ps;
    forall i, j | 0 <= i < j < |r| ensures !Before(r[j], r[i]) {
      assert r[j] == ps[j - 1] && ps[j - 1] in ps;
    }
  }

  /** Nothing in a sorted list comes before what comes before its first element. */
  lemma {:induction false} FrontOfSorted(p: string, ps: seq<string>)
    requires Sorted(ps) && ps != [] && Before(p, ps[0])
    ensures forall q :: q in ps ==> !Before(q, p)
  {
    forall q | q in ps ensures !Before(q, p) {
      var j :| 0 <= j < |ps| && ps[j] == q;
      assert j > 0 ==> !Before(ps[j], ps[0]);
      BeforeIsStrictTotal(q, p, ps[0]);
      BeforeIsStrictTotal(ps[0], p, ps[0]);
    }
  }

  lemma {:induction false} InsertHolds(p: string, ps: seq<string>)
    ensures multiset(Insert(p, ps)) == multiset(ps) + multiset{p}
    ensures forall q :: q in Insert(p, ps) ==> q == p || q in ps
  {
    if ps != [] && !Before(p, ps[0]) {
      InsertHolds(p, ps[1..]);
      assert ps == [ps[0]] + ps[1..];
    }
  }

  lemma {:induction false} InsertIsSorted(p: string, ps: seq<string>)
    requires Sorted(ps)
    ensures Sorted(Insert(p, ps)) && multiset(Insert(p, ps)) == multiset(ps) + multiset{p}
  {
    InsertHolds(p, ps);
    if ps == [] {
      assert [p] + ps == [p];
    } else if Before(p, ps[0]) {
      FrontOfSorted(p, ps);
      SortedCons(p, ps);
    } else {
      InsertIsSorted(p, ps[1..]);
      InsertHolds(p, ps[1..]);
      forall q | q in Insert(p, ps[1..]) ensures !Before(q, ps[0]) {
        if q != p {
          var j :| 0 <= j < |ps[1..]| && ps[1..][j] == q;
          assert ps[j + 1] == q;
        }
      }
      SortedCons(ps[0], Insert(p, ps[1..]));
    }
  }

  lemma {:induction false} SortIsSorted(ps: seq<string>)
    ensures Sorted(Sort(ps)) && multiset(Sort(ps)) == multiset(ps)
  {
    if ps != [] {
      var init, last := ps[..|ps| - 1], ps[|ps| - 1];
      SortIsSorted(init);
      InsertIsSorted(last, Sort(init));
      assert ps == init + [last];
    }
  }

  // ---------------------------------------------------------------- the wildcard answer

  /** What matching a pattern against a key says: None for a malformed pattern. */
  type Matcher = (string, string) -> Option<bool>

  predicate HasWildcard(pattern: string) {
    '*' in pattern || '?' in pattern || '[' in pattern
  }

  predicate Matches(answers: map<string, string>, m: Matcher, key: string, p: string) {
    p in answers && HasWildcard(p) && m(p, key) == Some(true)
  }

  /** A key of the map is tried as a pattern exactly if some character of it is a star, a question mark or an open
      bracket. */
  lemma {:induction false} TriedExactly(answers: map<string, string>, m: Matcher, key: string, p: string)
    requires p in answers && m(p, key) == Some(true)
    ensures Matches(answers, m, key, p) <==> exists i :: 0 <= i < |p| && p[i] in {'*', '?', '['}
  {
    if '*' in p {
      var i :| 0 <= i < |p| && p[i] == '*';
      assert p[i] in {'*', '?', '['};
    } else if '?' in p {
      var i :| 0 <= i < |p| && p[i] == '?';
      assert p[i] in {'*', '?', '['};
    } else if '[' in p {
      var i :| 0 <= i < |p| && p[i] == '[';
      assert p[i] in {'*', '?', '['};
    }
  }

  /** The answer of the best pattern that matches: the one that comes before all others. */
  ghost predicate IsBest(answers: map<string, string>, m: Matcher, key: string, p: string) {
    Matches(answers, m, key, p) && forall q :: Matches(answers, m, key, q) && q != p ==> Before(p, q)
  }

  ghost predicate IsWildcardAnswer(answers: map<string, string>, m: Matcher, key: string, r: Option<string>) {
    match r
    case None => forall p :: !Matches(answers, m, key, p)
    case Some(v) => exists p :: IsBest(answers, m, key, p) && answers[p] == v
  }

  /** There is one answer. */
  lemma AnswerIsUnique(answers: map<string, string>, m: Matcher, key: string, r: Option<string>, r': Option<string>)
    requires IsWildcardAnswer(answers, m, key, r) && IsWildcardAnswer(answers, m, key, r')
    ensures r == r'
  {
    if r.Some? && r'.Some? {
      var p :| IsBest(answers, m, key, p) && answers[p] == r.value;
      var q :| IsBest(answers, m, key, q) && answers[q] == r'.value;
      BeforeIsStrictTotal(p, q, p);
    }
  }

  /** The pattern that gives the answer outranks every other pattern that matches. */
  lemma {:induction false} AnswerOutranks(answers: map<string, string>, m: Matcher, key: string, r: Option<string>)
    returns (p: string)
    requires IsWildcardAnswer(answers, m, key, r) && r.Some?
    ensures Matches(answers, m, key, p) && answers[p] == r.value
    ensures forall q :: Matches(answers, m, key, q) && q != p ==> Outranks(p, q)
  {
    p :| IsBest(answers, m, key, p) && answers[p] == r.value;
    forall q | Matches(answers, m, key, q) && q != p ensures Outranks(p, q) {
      BeforeIsOutranking(p, q);
    }
  }

  /** An order in which a map may be gone through: every key once. */
  ghost predicate IsOrderOf(order: seq<string>, answers: map<string, string>) {
    && (forall p :: p in order <==> p in answers)
    && (forall i, j :: 0 <= i < j < |order| ==> order[i] != order[j])
  }

  /** wildcardPromptAnswer, for any order of going through the map: the loop that collects the patterns, the
      sort, and the loop that takes the first match. */
  method WildcardPromptAnswer(answers: map<string, string>, order: seq<string>, m: Matcher, key: string)
    returns (r: Option<string>)
    requires IsOrderOf(order, answers)
    ensures IsWildcardAnswer(answers, m, key, r)
  {
    if |answers| == 0 {
      return None;
    }
    var patterns := [];
    for i := 0 to |order|
      invariant forall p :: p in patterns <==> p in order[..i] && HasWildcard(p) && m(p, key).Some?
    {
      if !HasWildcard(order[i]) {
        continue;
      }
      if m(order[i], key).None? {
        continue;
      }
      patterns := patterns + [order[i]];
    }
    assert order[..|order|] == order;
    r := FirstMatch(answers, patterns, m, key);
  }

  method FirstMatch(answers: map<string, string>, patterns: seq<string>, m: Matcher, key: string)
    returns (r: Option<string>)
    requires forall p :: p in patterns <==> p in answers && HasWildcard(p) && m(p, key).Some?
    ensures IsWildcardAnswer(answers, m, key, r)
  {
    var sorted := Sort(patterns);
    SortIsSorted(patterns);
    SameElements(sorted, patterns);
    for i := 0 to |sorted|
      invariant forall k :: 0 <= k < i ==> m(sorted[k], key) != Some(true)
    {
      if m(sorted[i], key) == Some(true) {
        assert sorted[i] in patterns;
        FirstIsBest(answers, sorted, m, key, i);
        return Some(answers[sorted[i]]);
      }
    }
    return None;
  }

  lemma SameElements(a: seq<string>, b: seq<string>)
    requires multiset(a) == multiset(b)
    ensures forall p :: p in a <==> p in b
  {
    forall p ensures p in a <==> p in b {
      assert p in a <==> p in multiset(a);
      assert p in b <==> p in multiset(b);
    }
  }

  lemma FirstIsBest(answers: map<string, string>, sorted: seq<string>, m: Matcher, key: string, i: nat)
    requires Sorted(sorted) && i < |sorted| && m(sorted[i], key) == Some(true)
    requires forall p :: p in sorted <==> p in answers && HasWildcard(p) && m(p, key).Some?
    requires forall k :: 0 <= k < i ==> m(sorted[k], key) != Some(true)
    ensures IsBest(answers, m, key, sorted[i])
  {
    assert sorted[i] in sorted;
    forall q | Matches(answers, m, key, q) && q != sorted[i] ensures Before(sorted[i], q) {
      assert q in sorted;
      var j :| 0 <= j < |sorted| && sorted[j] == q;
      assert j > i;
      BeforeIsStrictTotal(sorted[i], q, q);
    }
  }

  /** The answer does not depend on the order in which the map is gone through. */
  method TwoOrdersOneAnswer(answers: map<string, string>, order: seq<string>, order': seq<string>, m: Matcher,
                            key: string)
    returns (r: Option<string>, r': Option<string>)
    requires IsOrderOf(order, answers) && IsOrderOf(order', answers)
    ensures r == r'
  {
    r := WildcardPromptAnswer(answers, order, m, key);
    r' := WildcardPromptAnswer(answers, order', m, key);
    AnswerIsUnique(answers, m, key, r, r');
  }

  /** normalizePromptKey. */
  function NormalizeKey(key: string): string {
    Lower(TrimSpace(key))
  }

  /** promptAnswer: the exact key, then the wildcards, then the answer of the enclosing prompt. */
  method PromptAnswer(answers: map<string, string>, order: seq<string>, m: Matcher, base: string -> Option<string>,
                      rawKey: string)
    returns (r: Option<string>)
    requires IsOrderOf(order, answers)
    ensures var key := NormalizeKey(rawKey);
            key in answers ==> r == Some(answers[key])
    ensures var key := NormalizeKey(rawKey);
            key !in answers && (exists p :: Matches(answers, m, key, p)) ==>
              r.Some? && IsWildcardAnswer(answers, m, key, r)
    ensures var key := NormalizeKey(rawKey);
            key !in answers && (forall p :: !Matches(answers, m, key, p)) ==> r == base(key)
  {
    var key := NormalizeKey(rawKey);
    if key in answers {
      return Some(answers[key]);
    }
    r := WildcardPromptAnswer(answers, order, m, key);
    if r.None? {
      r := base(key);
    }
  }

  // ---------------------------------------------------------------- arguments that carry answers

  const PREFIX := "--chain."

  datatype UsageError = MissingKey | MissingValue(key: string)

  /** The arguments that are left, and the answers taken from the others. */
  datatype Extracted = Extracted(cleaned: seq<string>, answers: map<string, string>)

  /** strings.Cut at the first equals sign: None for the value when there is none. */
  function CutAtEquals(raw: string): (string, Option<string>) {
    if raw == "" then ("", None)
    else if raw[0] == '=' then ("", Some(raw[1..]))
    else
      var (key, value) := CutAtEquals(raw[1..]);
      ([raw[0]] + key, value)
  }

  predicate IsChainArg(arg: string) {
    HasPrefix(arg, PREFIX)
  }

  /** extractChainArgs on the arguments that remain, with what was taken so far. */
  function ExtractFrom(args: seq<string>, so: Extracted): Result<Extracted, UsageError>
    decreases |args|
  {
    if args == [] then Ok(so)
    else if args[0] == "--" then Ok(so.(cleaned := so.cleaned + args))
    else if !IsChainArg(args[0]) then ExtractFrom(args[1..], so.(cleaned := so.cleaned + [args[0]]))
    else
      var (raw, value) := CutAtEquals(args[0][|PREFIX|..]);
      var key := NormalizeKey(raw);
      if key == "" then Err(MissingKey)
      else if value.Some? then ExtractFrom(args[1..], so.(answers := so.answers[key := value.value]))
      else if |args| < 2 || HasPrefix(args[1], "--") then Err(MissingValue(key))
      else ExtractFrom(args[2..], so.(answers := so.answers[key := args[1]]))
  }

  function Extract(args: seq<string>): Result<Extracted, UsageError> {
    ExtractFrom(args, Extracted([], map[]))
  }

  method ExtractChainArgs(args: seq<string>) returns (r: Result<Extracted, UsageError>)
    ensures r == Extract(args)
  {
    var cleaned: seq<string> := [];
    var answers: map<string, string> := map[];
    var i := 0;
    assert args[0..] == args;
    while i < |args|
      invariant 0 <= i <= |args|
      invariant Extract(args) == ExtractFrom(args[i..], Extracted(cleaned, answers))
    {
      ghost var rest := args[i..];
      assert rest[0] == args[i] && rest[1..] == args[i + 1..];
      var arg := args[i];
      if arg == "--" {
        return Ok(Extracted(cleaned + args[i..], answers));
      }
      if !IsChainArg(arg) {
        cleaned := cleaned + [arg];
        i := i + 1;
        continue;
      }
      var (raw, value) := CutAtEquals(arg[|PREFIX|..]);
      var key := NormalizeKey(raw);
      if key == "" {
        return Err(MissingKey);
      }
      if value.None? {
        if i + 1 >= |args| || HasPrefix(args[i + 1], "--") {
          return Err(MissingValue(key));
        }
        assert rest[1] == args[i + 1] && rest[2..] == args[i + 2..];
        value := Some(args[i + 1]);
        i := i + 1;
      }
      answers := answers[key := value.value];
      i := i + 1;
    }
    assert args[|args|..] == [];
    return Ok(Extracted(cleaned, answers));
  }

  /** The arguments up to a separator hold no answer. */
  predicate IsClean(args: seq<string>) {
    args == [] || args[0] == "--" || (!IsChainArg(args[0]) && IsClean(args[1..]))
  }

  lemma {:induction false} CleanIsKept(args: seq<string>, so: Extracted)
    requires IsClean(args)
    ensures ExtractFrom(args, so) == Ok(so.(cleaned := so.cleaned + args))
    decreases |args|
  {
    if args == [] {
      assert so.cleaned + args == so.cleaned;
    } else if args[0] != "--" {
      CleanIsKept(args[1..], so.(cleaned := so.cleaned + [args[0]]));
      assert so.cleaned + [args[0]] + args[1..] == so.cleaned + args;
    }
  }

  lemma {:induction false} CleanAppend(args: seq<string>, more: seq<string>)
    requires IsClean(args) && IsClean(more)
    ensures IsClean(args + more)
  {
    if args == [] {
      assert args + more == more;
    } else if args[0] != "--" {
      CleanAppend(args[1..], more);
      assert (args + more)[1..] == args[1..] + more;
    }
  }

  lemma {:induction false} ExtractedIsClean(args: seq<string>, so: Extracted)
    requires IsClean(so.cleaned) && ExtractFrom(args, so).Ok?
    ensures IsClean(ExtractFrom(args, so).value.cleaned)
    decreases |args|
  {
    if args == [] {
    } else if args[0] == "--" {
      CleanAppend(so.cleaned, args);
    } else if !IsChainArg(args[0]) {
      assert [args[0]][1..] == [];
      CleanAppend(so.cleaned, [args[0]]);
      ExtractedIsClean(args[1..], so.(cleaned := so.cleaned + [args[0]]));
    } else {
      var (raw, value) := CutAtEquals(args[0][|PREFIX|..]);
      var key := NormalizeKey(raw);
      if value.Some? {
        ExtractedIsClean(args[1..], so.(answers := so.answers[key := value.value]));
      } else {
        ExtractedIsClean(args[2..], so.(answers := so.answers[key := args[1]]));
      }
    }
  }

  /** Extracting is complete: what is left holds no more answers, and extracting again changes nothing. */
  lemma ExtractOnce(args: seq<string>)
    requires Extract(args).Ok?
    ensures var left := Extract(args).value.cleaned; Extract(left) == Ok(Extracted(left, map[]))
  {
    ExtractedIsClean(args, Extracted([], map[]));
    var left := Extract(args).value.cleaned;
    CleanIsKept(left, Extracted([], map[]));
    assert [] + left == left;
  }

  // ---------------------------------------------------------------- answers written as arguments

  datatype Answer = Answer(key: string, value: string)

  /** A key as somebody may write it, with blanks around it and in whatever letter case, for the key that it means. */
  predicate IsSpelling(raw: string, key: string) {
    key != "" && NormalizeKey(raw) == key && '=' !in raw
  }

  function PutAnswer(m: map<string, string>, a: Answer): map<string, string> {
    m[a.key := a.value]
  }

  /** A list of pieces in any order: plain arguments, answers in one argument, and answers with the value in an argument
      of its own. */
  datatype Piece =
    | PlainArg(arg: string)
    | Chained(raw: string, answer: Answer)
    | Spaced(raw: string, answer: Answer)

  function Arguments(p: Piece): seq<string> {
    match p
    case PlainArg(arg) => [arg]
    case Chained(raw, a) => ["--chain." + (raw + "=" + a.value)]
    case Spaced(raw, a) => ["--chain." + raw, a.value]
  }

  function Render(pieces: seq<Piece>): seq<string> {
    if pieces == [] then [] else Arguments(pieces[0]) + Render(pieces[1..])
  }

  function Plains(pieces: seq<Piece>): seq<string> {
    if pieces == [] then [] else (if pieces[0].PlainArg? then [pieces[0].arg] else []) + Plains(pieces[1..])
  }

  function Answered(m: map<string, string>, pieces: seq<Piece>): map<string, string>
    decreases |pieces|
  {
    if pieces == [] then m
    else Answered(if pieces[0].PlainArg? then m else PutAnswer(m, pieces[0].answer), pieces[1..])
  }

  lemma {:induction false} CutWritten(key: string, value: string)
    requires '=' !in key
    ensures CutAtEquals(key + "=" + value) == (key, Some(value))
    decreases |key|
  {
    var raw := key + "=" + value;
    if key == "" {
      assert raw == "=" + value && raw[1..] == value;
    } else {
      assert raw[1..] == key[1..] + "=" + value;
      CutWritten(key[1..], value);
      assert key == [key[0]] + key[1..];
    }
  }

  lemma {:induction false} NothingToCut(raw: string)
    requires '=' !in raw
    ensures CutAtEquals(raw) == (raw, None)
  {
    if raw != "" {
      NothingToCut(raw[1..]);
      assert raw == [raw[0]] + raw[1..];
    }
  }

  /** A plain argument is neither the separator nor one that carries an answer; the value of a spaced answer does not
      look like an option. */
  predicate IsProper(p: Piece) {
    match p
    case PlainArg(arg) => arg != "--" && !("--chain." <= arg)
    case Chained(raw, a) => IsSpelling(raw, a.key)
    case Spaced(raw, a) => IsSpelling(raw, a.key) && !("--" <= a.value)
  }

  /** What is told apart from a piece, on top of what was taken before. */
  function Took(so: Extracted, p: Piece): Extracted {
    if p.PlainArg? then so.(cleaned := so.cleaned + [p.arg]) else so.(answers := PutAnswer(so.answers, p.answer))
  }

  lemma {:induction false} ChainedIsTaken(raw: string, a: Answer, args: seq<string>, rest: seq<string>, so: Extracted)
    requires IsSpelling(raw, a.key) && args == ["--chain." + (raw + "=" + a.value)] + rest
    ensures ExtractFrom(args, so) == ExtractFrom(rest, Took(so, Chained(raw, a)))
  {
    CutWritten(raw, a.value);
    assert args[0][|PREFIX|..] == raw + "=" + a.value;
    assert |args[0]| > 2 && args[1..] == rest;
  }

  lemma {:induction false} SpacedIsTaken(raw: string, a: Answer, args: seq<string>, rest: seq<string>, so: Extracted)
    requires IsSpelling(raw, a.key) && !("--" <= a.value) && args == ["--chain." + raw, a.value] + rest
    ensures ExtractFrom(args, so) == ExtractFrom(rest, Took(so, Spaced(raw, a)))
  {
    NothingToCut(raw);
    assert args[0][|PREFIX|..] == raw;
    assert |args[0]| > 2 && args[1] == a.value && args[2..] == rest;
  }

  lemma {:induction false} PlainIsTaken(arg: string, args: seq<string>, rest: seq<string>, so: Extracted)
    requires arg != "--" && !("--chain." <= arg) && args == [arg] + rest
    ensures ExtractFrom(args, so) == ExtractFrom(rest, Took(so, PlainArg(arg)))
  {
    assert args[0] == arg && args[1..] == rest;
  }

  lemma {:induction false} PieceIsTaken(p: Piece, args: seq<string>, rest: seq<string>, so: Extracted)
    requires IsProper(p) && args == Arguments(p) + rest
    ensures ExtractFrom(args, so) == ExtractFrom(rest, Took(so, p))
  {
    match p
    case PlainArg(arg) => PlainIsTaken(arg, args, rest, so);
    case Chained(raw, a) => ChainedIsTaken(raw, a, args, rest, so);
    case Spaced(raw, a) => SpacedIsTaken(raw, a, args, rest, so);
  }

  /** What is told apart from the pieces, on top of what was taken before. */
  function Told(pieces: seq<Piece>, so: Extracted): Extracted {
    Extracted(so.cleaned + Plains(pieces), Answered(so.answers, pieces))
  }

  lemma {:induction false} ToldNext(pieces: seq<Piece>, so: Extracted)
    requires pieces != []
    ensures Told(pieces, so) == Told(pieces[1..], Took(so, pieces[0]))
  {
    if pieces[0].PlainArg? {
      assert so.cleaned + ([pieces[0].arg] + Plains(pieces[1..])) == so.cleaned + [pieces[0].arg] + Plains(pieces[1..]);
    } else {
      assert [] + Plains(pieces[1..]) == Plains(pieces[1..]);
    }
  }

  /** Proper pieces in front of anything are told apart, and then the rest is gone on with. */
  lemma {:induction false} RenderedFrom(pieces: seq<Piece>, tail: seq<string>, so: Extracted)
    requires forall i :: 0 <= i < |pieces| ==> IsProper(pieces[i])
    ensures ExtractFrom(Render(pieces) + tail, so) == ExtractFrom(tail, Told(pieces, so))
    decreases |pieces|
  {
    if pieces == [] {
      assert so.cleaned + [] == so.cleaned && Render(pieces) + tail == tail;
    } else {
      var rest := Render(pieces[1..]) + tail;
      assert Render(pieces) + tail == Arguments(pieces[0]) + rest;
      PieceIsTaken(pieces[0], Render(pieces) + tail, rest, so);
      RenderedFrom(pieces[1..], tail, Took(so, pieces[0]));
      ToldNext(pieces, so);
    }
  }

  lemma {:induction false} FromTheStart(pieces: seq<Piece>, tail: seq<string>)
    requires forall i :: 0 <= i < |pieces| ==> IsProper(pieces[i])
    ensures Extract(Render(pieces) + tail) ==
            ExtractFrom(tail, Extracted(Plains(pieces), Answered(map[], pieces)))
  {
    RenderedFrom(pieces, tail, Extracted([], map[]));
    assert [] + Plains(pieces) == Plains(pieces);
  }

  /** Plain arguments and answers in any mix and in either form are told apart: the plain ones in order, and for each
      key, however it is spelled, the answer written last. */
  lemma {:induction false} RenderedRoundTrip(pieces: seq<Piece>)
    requires forall i :: 0 <= i < |pieces| ==> IsProper(pieces[i])
    ensures Extract(Render(pieces)) == Ok(Extracted(Plains(pieces), Answered(map[], pieces)))
  {
    FromTheStart(pieces, []);
    assert Render(pieces) + [] == Render(pieces);
  }

  /** From the separator on, everything is left as it is. */
  lemma {:induction false} SeparatorEndsAnswers(pieces: seq<Piece>, tail: seq<string>)
    requires forall i :: 0 <= i < |pieces| ==> IsProper(pieces[i])
    ensures Extract(Render(pieces) + (["--"] + tail)) ==
            Ok(Extracted(Plains(pieces) + (["--"] + tail), Answered(map[], pieces)))
  {
    FromTheStart(pieces, ["--"] + tail);
  }

  /** An answer without a key is an error, and so is one without a value: nothing follows, or what follows looks like an
      option. */
  lemma {:induction false} BadAnswerFails(pieces: seq<Piece>, raw: string, tail: seq<string>)
    requires forall i :: 0 <= i < |pieces| ==> IsProper(pieces[i])
    requires '=' !in raw
    ensures NormalizeKey(raw) == "" ==> Extract(Render(pieces) + (["--chain." + raw] + tail)) == Err(MissingKey)
    ensures NormalizeKey(raw) != "" && (tail == [] || "--" <= tail[0]) ==>
              Extract(Render(pieces) + (["--chain." + raw] + tail)) == Err(MissingValue(NormalizeKey(raw)))
  {
    var args := ["--chain." + raw] + tail;
    FromTheStart(pieces, args);
    NothingToCut(raw);
    assert args[0][|PREFIX|..] == raw && |args[0]| > 2;
    assert tail != [] ==> args[1] == tail[0];
  }

  /** The same with an equals sign: a value alone is no answer. */
  lemma {:induction false} ValueWithoutKeyFails(pieces: seq<Piece>, raw: string, value: string, tail: seq<string>)
    requires forall i :: 0 <= i < |pieces| ==> IsProper(pieces[i])
    requires '=' !in raw && NormalizeKey(raw) == ""
    ensures Extract(Render(pieces) + (["--chain." + (raw + "=" + value)] + tail)) == Err(MissingKey)
  {
    var args := ["--chain." + (raw + "=" + value)] + tail;
    FromTheStart(pieces, args);
    CutWritten(raw, value);
    assert args[0][|PREFIX|..] == raw + "=" + value && |args[0]| > 2;
  }

  /** A key is read without the blanks around it and in lower case. */
  lemma {:induction false} KeyIsRead(pre: string, word: string, post: string)
    requires forall c :: c in pre || c in post ==> IsSpace(c)
    requires word != "" && Trimmed(word)
    ensures NormalizeKey(pre + word + post) == Lower(word)
  {
    TrimPadded(pre, word, post);
  }
}
