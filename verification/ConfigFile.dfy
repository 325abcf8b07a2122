/** The configuration file as the loader sees it: a store from dotted keys to nodes. */
module ConfigFile {
  import opened Text
  import opened PathLists
  import opened Placeholders
  import opened YamlTree
  import opened YamlUpdates

  /** A configuration key as its segments, such as ["server", "port"]. */
  type Key = seq<string>

  /** A segment of a key that the configuration structure declares, in whatever letter case. */
  predicate CanonicalSegment(s: string) {
    s != "" && Trimmed(s) && '.' !in s && '$' !in s && Atoi(s).None?
  }

  predicate Canonical(key: Key) {
    key != [] && forall i :: 0 <= i < |key| ==> CanonicalSegment(key[i])
  }

  /** Neither key lies inside the other. */
  predicate Apart(a: Key, b: Key) {
    !(a <= b) && !(b <= a)
  }

  /** The key in lower case, as the loader knows it. */
  function Fold(key: Key): (r: Key)
    ensures |r| == |key| && forall i :: 0 <= i < |key| ==> r[i] == Lower(key[i])
  {
    seq(|key|, i requires 0 <= i < |key| => Lower(key[i]))
  }

  /** The loader can tell the two keys apart. */
  predicate FoldApart(a: Key, b: Key) {
    Apart(Fold(a), Fold(b))
  }

  /** The dotted text of a key. */
  function PathText(key: Key): string {
    Join(key, ".")
  }

  lemma SegmentsOfPathText(key: Key)
    requires Canonical(key)
    ensures Segments(PathText(key)) == key
  {
    SplitJoin(key, '.');
    forall i | 0 <= i < |key|
      ensures TrimSpace(key[i]) == key[i]
    {
      TrimFixed(key[i]);
    }
  }

  lemma SegmentHasNoDollar(key: Key, i: nat)
    requires Canonical(key) && i < |key|
    ensures '$' !in key[i]
  {
    assert CanonicalSegment(key[i]);
  }

  /** A path that names a canonical key holds no '$'. */
  lemma NoDollarInPath(path: string)
    requires Canonical(Segments(path))
    ensures '$' !in path
  {
    if '$' in path {
      SplitKeeps(path, '.', '$');
      var i :| 0 <= i < |Split(path, '.')| && '$' in Split(path, '.')[i];
      TrimKeeps(Split(path, '.')[i], '$');
      SegmentHasNoDollar(Segments(path), i);
    }
  }

  // ---------------------------------------------------------------- lookup as the loader does it

  /** The loader folds the case of mapping keys, and of the keys it looks for. */
  predicate IsFoldedKey(n: Node, segment: string) {
    n.kind == Scalar && Lower(n.value) == Lower(segment)
  }

  function LoadIndex(content: seq<Node>, segment: string, from: nat): (i: Option<nat>)
    ensures i.Some? ==> from <= i.value - 1 && i.value < |content| && IsFoldedKey(content[i.value - 1], segment)
    ensures i.Some? ==> (i.value - from) % 2 == 1
    decreases |content| - from
  {
    if from + 1 >= |content| then None
    else if IsFoldedKey(content[from], segment) then Some(from + 1)
    else LoadIndex(content, segment, from + 2)
  }

  function LoadLookup(n: Node, key: Key): Option<Node>
    decreases |key|
  {
    if key == [] then Some(n)
    else if n.kind != Mapping then None
    else
      match LoadIndex(n.content, key[0], 0)
      case None => None
      case Some(i) => LoadLookup(n.content[i], key[1..])
  }

  /** The keys at two places of a mapping do not fold alike. */
  predicate FoldDiffer(content: seq<Node>, i: nat, j: nat)
    requires i < |content| && j < |content|
  {
    content[i].kind == Scalar && content[j].kind == Scalar ==> Lower(content[i].value) != Lower(content[j].value)
  }

  predicate KeysFoldApart(content: seq<Node>) {
    forall i, j :: 0 <= i < j < |content| && i % 2 == 0 && j % 2 == 0 ==> FoldDiffer(content, i, j)
  }

  /** No mapping of the tree holds two keys that fold alike. */
  ghost predicate FoldsOnce(n: Node)
    decreases n
  {
    (n.kind == Mapping ==> KeysFoldApart(n.content)) && forall i :: 0 <= i < |n.content| ==> FoldsOnce(n.content[i])
  }

  /** The tree has the key in this very spelling, as far as it has it at all. */
  ghost predicate Spells(n: Node, key: Key)
    decreases |key|
  {
    key == [] || n.kind != Mapping ||
    forall i :: 0 <= i < |n.content| - 1 && i % 2 == 0 && IsFoldedKey(n.content[i], key[0]) ==>
      n.content[i].value == key[0] && Spells(n.content[i + 1], key[1..])
  }

  /** A key that the writer finds in a mapping is the one that the loader finds. */
  lemma {:induction false} LoadIndexIsMapIndex(content: seq<Node>, segment: string, from: nat)
    requires from % 2 == 0 && KeysFoldApart(content) && MapIndex(content, segment, from).Some?
    ensures LoadIndex(content, segment, from) == MapIndex(content, segment, from)
    decreases |content| - from
  {
    if IsKey(content[from], segment) {
    } else {
      var i := MapIndex(content, segment, from).value;
      assert FoldDiffer(content, from, i - 1);
      LoadIndexIsMapIndex(content, segment, from + 2);
    }
  }

  /** Under the spelling proviso a key that the writer misses, the loader misses too. */
  lemma {:induction false} NoMapIndexNoLoadIndex(content: seq<Node>, segment: string, from: nat)
    requires from % 2 == 0 && MapIndex(content, segment, from).None?
    requires forall i :: 0 <= i < |content| - 1 && i % 2 == 0 && IsFoldedKey(content[i], segment) ==>
             content[i].value == segment
    ensures LoadIndex(content, segment, from).None?
    decreases |content| - from
  {
    if from + 1 < |content| {
      NoMapIndexNoLoadIndex(content, segment, from + 2);
    }
  }

  lemma {:induction false} LoadIndexFolds(content: seq<Node>, a: string, b: string, from: nat)
    requires Lower(a) == Lower(b)
    ensures LoadIndex(content, a, from) == LoadIndex(content, b, from)
    decreases |content| - from
  {
    if from + 1 < |content| && !IsFoldedKey(content[from], a) {
      LoadIndexFolds(content, a, b, from + 2);
    }
  }

  /** One level of a successful lookup of a canonical key. */
  lemma {:induction false} ResolveStep(n: Node, key: Key, p: Pos)
    requires FoldsOnce(n) && Canonical(key) && Resolve(n, key) == Ok(p)
    ensures n.kind == Mapping && p != [] && p[0] < |n.content| && p[0] % 2 == 1
    ensures LoadIndex(n.content, key[0], 0) == Some(p[0])
    ensures |key| == 1 ==> p[1..] == []
    ensures |key| > 1 ==> Resolve(n.content[p[0]], key[1..]) == Ok(p[1..])
  {
    assert CanonicalSegment(key[0]);
    LoadIndexIsMapIndex(n.content, key[0], 0);
  }

  /** Where the writer finds a key, the loader finds it too, if no mapping holds two keys that fold alike. */
  lemma {:induction false} ResolveIsLoadLookup(n: Node, key: Key, p: Pos)
    requires FoldsOnce(n) && Canonical(key) && Resolve(n, key) == Ok(p)
    ensures LoadLookup(n, key) == Some(At(n, p))
    decreases |key|
  {
    ResolveStep(n, key, p);
    if |key| > 1 {
      ResolveIsLoadLookup(n.content[p[0]], key[1..], p[1..]);
    }
  }

  // ---------------------------------------------------------------- a write, seen by the loader

  lemma {:induction false} SameKeysFoldApart(content: seq<Node>, i: nat, child: Node)
    requires i < |content| && i % 2 == 1 && KeysFoldApart(content)
    ensures KeysFoldApart(content[i := child])
  {
    forall j, k | 0 <= j < k < |content| && j % 2 == 0 && k % 2 == 0 ensures FoldDiffer(content[i := child], j, k) {
      assert FoldDiffer(content, j, k);
    }
  }

  lemma {:induction false} PutFoldsOnce(n: Node, p: Pos, m: Node)
    requires HasPos(n, p) && OnValues(n, p) && FoldsOnce(n) && FoldsOnce(m)
    ensures FoldsOnce(Put(n, p, m))
    decreases |p|
  {
    if p != [] {
      PutFoldsOnce(n.content[p[0]], p[1..], m);
      var n' := Put(n, p, m);
      if n.kind == Mapping {
        SameKeysFoldApart(n.content, p[0], n'.content[p[0]]);
      }
      forall i | 0 <= i < |n'.content| ensures FoldsOnce(n'.content[i]) {
        assert FoldsOnce(n.content[i]);
      }
    }
  }

  /** Replacing a value, or what lies below it, by one that spells the rest of the key. */
  lemma {:induction false} SpellsReplace(n: Node, i: nat, child: Node, key: Key)
    requires n.kind == Mapping && i < |n.content| && i % 2 == 1 && key != [] && Spells(n, key)
    requires IsFoldedKey(n.content[i - 1], key[0]) ==> Spells(child, key[1..])
    ensures Spells(n.(content := n.content[i := child]), key)
  {
    var content' := n.content[i := child];
    forall j | 0 <= j < |content'| - 1 && j % 2 == 0 && IsFoldedKey(content'[j], key[0])
      ensures content'[j].value == key[0] && Spells(content'[j + 1], key[1..])
    {
      assert content'[j] == n.content[j];
      assert IsFoldedKey(n.content[j], key[0]);
    }
  }

  /** Writing a scalar or a list moves no key. */
  lemma {:induction false} PutSpells(n: Node, p: Pos, m: Node, key: Key)
    requires HasPos(n, p) && OnValues(n, p) && m.kind != Mapping && Spells(n, key)
    ensures Spells(Put(n, p, m), key)
    decreases |p|
  {
    if p != [] && key != [] && n.kind == Mapping {
      var i := p[0];
      if IsFoldedKey(n.content[i - 1], key[0]) {
        assert Spells(n.content[i - 1 + 1], key[1..]);
        PutSpells(n.content[i], p[1..], m, key[1..]);
      }
      SpellsReplace(n, i, Put(n.content[i], p[1..], m), key);
    }
  }

  lemma {:induction false} AppendFoldsApart(content: seq<Node>, key: string, child: Node)
    requires |content| % 2 == 0 && KeysFoldApart(content) && LoadIndex(content, key, 0).None?
    ensures KeysFoldApart(content + [KeyNode(key), child])
  {
    var content' := content + [KeyNode(key), child];
    forall i, j | 0 <= i < j < |content'| && i % 2 == 0 && j % 2 == 0 ensures FoldDiffer(content', i, j) {
      if j < |content| {
        assert FoldDiffer(content, i, j);
      } else {
        NotFoldedAt(content, key, 0, i);
      }
    }
  }

  lemma {:induction false} NotFoldedAt(content: seq<Node>, key: string, from: nat, i: nat)
    requires from <= i < |content| && from % 2 == 0 && i % 2 == 0 && |content| % 2 == 0
    requires LoadIndex(content, key, from).None?
    ensures !IsFoldedKey(content[i], key)
    decreases |content| - from
  {
    if from < i {
      NotFoldedAt(content, key, from + 2, i);
    }
  }

  lemma {:induction false} KeyFoundFits(n: Node, key: Key, i: nat)
    requires n.kind == Mapping && FoldsOnce(n) && key != [] && Spells(n, key) &&
             MapIndex(n.content, key[0], 0) == Some(i)
    ensures LoadIndex(n.content, key[0], 0) == Some(i) && Spells(n.content[i], key[1..])
  {
    LoadIndexIsMapIndex(n.content, key[0], 0);
    assert IsFoldedKey(n.content[i - 1], key[0]);
    assert Spells(n.content[i - 1 + 1], key[1..]);
  }

  lemma {:induction false} KeyAddedFits(n: Node, key: Key, blank: Node, n': Node)
    requires WellFormed(n) && n.kind == Mapping && FoldsOnce(n) && key != [] && Spells(n, key)
    requires FoldsOnce(blank) && Spells(blank, key[1..]) && MapIndex(n.content, key[0], 0).None?
    requires n' == n.(content := n.content + [KeyNode(key[0]), blank])
    ensures FoldsOnce(n') && Spells(n', key)
  {
    NoMapIndexNoLoadIndex(n.content, key[0], 0);
    AppendFoldsApart(n.content, key[0], blank);
    forall j | 0 <= j < |n'.content| - 1 && j % 2 == 0 && IsFoldedKey(n'.content[j], key[0])
      ensures n'.content[j].value == key[0] && Spells(n'.content[j + 1], key[1..])
    {
      if j < |n.content| {
        NotFoldedAt(n.content, key[0], 0, j);
      }
    }
  }

  /** Making one segment present: the mapping still folds once, and the segment is spelled as it should be. */
  lemma {:induction false} WithKeyFits(n: Node, key: Key, blank: Node)
    requires WellFormed(n) && n.kind == Mapping && FoldsOnce(n) && key != [] && Spells(n, key)
    requires WellFormed(blank) && FoldsOnce(blank) && Spells(blank, key[1..])
    ensures var (n', i) := WithKey(n, key[0], blank);
            && FoldsOnce(n') && Spells(n', key) && LoadIndex(n'.content, key[0], 0) == Some(i)
            && Spells(n'.content[i], key[1..])
  {
    var (n', i) := WithKey(n, key[0], blank);
    if MapIndex(n.content, key[0], 0).None? {
      KeyAddedFits(n, key, blank, n');
      WithKeyGrows(n, key[0], blank);
    }
    KeyFoundFits(n', key, i);
  }

  /** Replacing the value under a key by one that is fit. */
  lemma {:induction false} ReplaceFits(n: Node, i: nat, child: Node, key: Key)
    requires n.kind == Mapping && i < |n.content| && i % 2 == 1 && key != [] && FoldsOnce(n) && Spells(n, key)
    requires FoldsOnce(child) && Spells(child, key[1..])
    ensures FoldsOnce(n.(content := n.content[i := child])) && Spells(n.(content := n.content[i := child]), key)
  {
    SameKeysFoldApart(n.content, i, child);
    SpellsReplace(n, i, child, key);
    var n' := n.(content := n.content[i := child]);
    forall j | 0 <= j < |n'.content| ensures FoldsOnce(n'.content[j]) {
      assert j != i ==> n'.content[j] == n.content[j];
    }
  }

  /** One level of the creating walk. */
  lemma {:induction false} EnsureStep(n: Node, key: Key, kind: ScalarKind, t: Node, p: Pos)
    returns (n': Node, i: nat, child: Node, q: Pos)
    requires WellFormed(n) && |key| > 1 && Ensure(n, key, kind) == Ok((t, p))
    ensures n.kind == Mapping && WithKey(n, key[0], BlankFor(kind, false)) == (n', i) && WellFormed(n')
    ensures i < |n'.content| && i % 2 == 1 && WellFormed(n'.content[i])
    ensures Ensure(n'.content[i], key[1..], kind) == Ok((child, q)) && t == n'.(content := n'.content[i := child])
  {
    var w := WithKey(n, key[0], BlankFor(kind, false));
    n', i := w.0, w.1;
    WithKeyGrows(n, key[0], BlankFor(kind, false));
    var r := Ensure(n'.content[i], key[1..], kind).value;
    child, q := r.0, r.1;
  }

  /** One step of creating a key in a fit tree: the child below is fit as well. */
  lemma {:induction false} EnsureStepFits(n: Node, key: Key, kind: ScalarKind, t: Node, p: Pos)
    returns (n': Node, i: nat, child: Node, q: Pos)
    requires WellFormed(n) && FoldsOnce(n) && Spells(n, key) && |key| > 1 && Ensure(n, key, kind) == Ok((t, p))
    ensures n.kind == Mapping && WithKey(n, key[0], BlankFor(kind, false)) == (n', i)
    ensures i < |n'.content| && i % 2 == 1 && LoadIndex(n'.content, key[0], 0) == Some(i)
    ensures WellFormed(n'.content[i]) && FoldsOnce(n'.content[i]) && Spells(n'.content[i], key[1..])
    ensures Ensure(n'.content[i], key[1..], kind) == Ok((child, q)) && t == n'.(content := n'.content[i := child])
  {
    n', i, child, q := EnsureStep(n, key, kind, t, p);
    WithKeyFits(n, key, BlankFor(kind, false));
  }

  /** Creating a key that is spelled as the tree spells it. */
  lemma {:induction false} EnsureFits(n: Node, key: Key, kind: ScalarKind, t: Node, p: Pos)
    requires WellFormed(n) && FoldsOnce(n) && Spells(n, key) && Canonical(key) && Ensure(n, key, kind) == Ok((t, p))
    ensures FoldsOnce(t) && Spells(t, key)
    decreases |key|
  {
    WithKeyFits(n, key, BlankFor(kind, |key| == 1));
    if |key| > 1 {
      var n', i, child, q := EnsureStep(n, key, kind, t, p);
      EnsureFits(n'.content[i], key[1..], kind, child, q);
      ReplaceFits(n', i, child, key);
    }
  }

  lemma {:induction false} FoldTail(key: Key)
    requires key != []
    ensures Fold(key)[0] == Lower(key[0]) && Fold(key)[1..] == Fold(key[1..])
  {
  }

  lemma {:induction false} PrefixCons(a: Key, b: Key)
    requires a != [] && b != [] && a[0] == b[0] && a[1..] <= b[1..]
    ensures a <= b
  {
    assert a == [a[0]] + a[1..] && b == [b[0]] + b[1..];
  }

  lemma {:induction false} TailsApart(a: Key, b: Key)
    requires Apart(a, b) && a != [] && b != [] && a[0] == b[0]
    ensures Apart(a[1..], b[1..])
  {
    if a[1..] <= b[1..] {
      PrefixCons(a, b);
    }
    if b[1..] <= a[1..] {
      PrefixCons(b, a);
    }
  }

  lemma {:induction false} ApartTails(a: Key, b: Key)
    requires FoldApart(a, b) && a != [] && b != [] && Lower(a[0]) == Lower(b[0])
    ensures FoldApart(a[1..], b[1..]) && |a| > 1 && |b| > 1
  {
    FoldTail(a);
    FoldTail(b);
    TailsApart(Fold(a), Fold(b));
  }

  /** A write at one key does not show at a key apart from it. */
  lemma {:induction false} LookupPutApart(n: Node, key: Key, p: Pos, m: Node, other: Key)
    requires FoldsOnce(n) && Canonical(key) && Canonical(other) && FoldApart(key, other)
    requires Resolve(n, key) == Ok(p)
    ensures LoadLookup(Put(n, p, m), other) == LoadLookup(n, other)
    decreases |key|
  {
    ResolveStep(n, key, p);
    var i := p[0];
    var child := Put(n.content[i], p[1..], m);
    if Lower(key[0]) == Lower(other[0]) {
      ApartTails(key, other);
      LookupPutApart(n.content[i], key[1..], p[1..], m, other[1..]);
    }
    LookupReplaceValue(n, key[0], i, child, other);
  }

  /** Replacing the value under one key shows only at keys that start there, and there as the new value. */
  lemma {:induction false} LookupReplaceValue(n: Node, segment: string, i: nat, child: Node, other: Key)
    requires n.kind == Mapping && i < |n.content| && i % 2 == 1 && other != []
    requires LoadIndex(n.content, segment, 0) == Some(i)
    ensures LoadLookup(n.(content := n.content[i := child]), other) ==
            if Lower(other[0]) == Lower(segment) then LoadLookup(child, other[1..]) else LoadLookup(n, other)
    ensures Lower(other[0]) == Lower(segment) ==> LoadLookup(n, other) == LoadLookup(n.content[i], other[1..])
  {
    LoadIndexPut(n.content, i, child, other[0], 0);
    LookupStep(n, other);
    LookupStep(n.(content := n.content[i := child]), other);
    if Lower(other[0]) == Lower(segment) {
      LoadIndexFolds(n.content, segment, other[0], 0);
    }
  }

  lemma {:induction false} LoadIndexPut(content: seq<Node>, i: nat, child: Node, segment: string, from: nat)
    requires i < |content| && i % 2 == 1 && from % 2 == 0
    ensures LoadIndex(content[i := child], segment, from) == LoadIndex(content, segment, from)
    decreases |content| - from
  {
    if from + 1 < |content| && !IsFoldedKey(content[from], segment) {
      LoadIndexPut(content, i, child, segment, from + 2);
    }
  }

  lemma {:induction false} LoadIndexAppend(content: seq<Node>, key: string, child: Node, segment: string, from: nat)
    requires |content| % 2 == 0 && from % 2 == 0 && from <= |content|
    requires Lower(key) != Lower(segment)
    ensures LoadIndex(content + [KeyNode(key), child], segment, from) == LoadIndex(content, segment, from)
    decreases |content| - from
  {
    if from < |content| {
      LoadIndexAppend(content, key, child, segment, from + 2);
    }
  }

  /** Making one key present in a mapping does not move another. */
  lemma {:induction false} WithKeyIndex(n: Node, key: string, blank: Node, segment: string)
    requires WellFormed(n) && n.kind == Mapping && Lower(key) != Lower(segment)
    ensures LoadIndex(WithKey(n, key, blank).0.content, segment, 0) == LoadIndex(n.content, segment, 0)
  {
    if MapIndex(n.content, key, 0) == None {
      LoadIndexAppend(n.content, key, blank, segment, 0);
    }
  }

  /** The loader's view of a mapping one level down. */
  lemma {:induction false} LookupStep(n: Node, key: Key)
    requires n.kind == Mapping && key != []
    ensures LoadLookup(n, key) ==
            match LoadIndex(n.content, key[0], 0)
            case None => None
            case Some(i) => LoadLookup(n.content[i], key[1..])
  {
  }

  /** Making one key present does not show at a key with another first segment. */
  lemma {:induction false} LookupWithOtherKey(n: Node, segment: string, blank: Node, other: Key)
    requires WellFormed(n) && n.kind == Mapping && other != [] && Lower(segment) != Lower(other[0])
    ensures LoadLookup(WithKey(n, segment, blank).0, other) == LoadLookup(n, other)
  {
    WithKeyIndex(n, segment, blank, other[0]);
    LookupStep(n, other);
    LookupStep(WithKey(n, segment, blank).0, other);
  }

  /** Creating one key does not show at a key with another first segment. */
  lemma {:induction false} LookupEnsureElsewhere(n: Node, key: Key, kind: ScalarKind, t: Node, p: Pos, other: Key)
    requires WellFormed(n) && FoldsOnce(n) && Spells(n, key) && Canonical(key)
    requires other != [] && Lower(key[0]) != Lower(other[0]) && Ensure(n, key, kind) == Ok((t, p))
    ensures LoadLookup(t, other) == LoadLookup(n, other)
  {
    var blank := BlankFor(kind, |key| == 1);
    var (n', i) := WithKey(n, key[0], blank);
    WithKeyGrows(n, key[0], blank);
    WithKeyFits(n, key, blank);
    LookupWithOtherKey(n, key[0], blank, other);
    if |key| > 1 {
      LookupReplaceValue(n', key[0], i, t.content[i], other);
    }
  }

  /** Making the first segment of a key present, with an empty mapping if it was missing, does not show at a key
      that goes on below it. */
  lemma {:induction false} LookupWithKey(n: Node, key: Key, other: Key, blank: Node)
    requires WellFormed(n) && n.kind == Mapping && FoldsOnce(n) && |other| > 1
    requires key != [] && Spells(n, key) && Lower(key[0]) == Lower(other[0])
    requires blank.kind == Mapping && blank.content == []
    ensures var (n', i) := WithKey(n, key[0], blank);
            LoadLookup(n'.content[i], other[1..]) == LoadLookup(n, other)
  {
    LookupStep(n, other);
    LoadIndexFolds(n.content, key[0], other[0], 0);
    if MapIndex(n.content, key[0], 0).Some? {
      LoadIndexIsMapIndex(n.content, key[0], 0);
    } else {
      NoMapIndexNoLoadIndex(n.content, key[0], 0);
      LookupStep(blank, other[1..]);
    }
  }

  /** A child that answers as the child it replaces does leaves the answer of the mapping as it was. */
  lemma {:induction false} LookupBelowKey(n: Node, key: Key, blank: Node, n': Node, i: nat, child: Node, other: Key)
    requires WellFormed(n) && n.kind == Mapping && FoldsOnce(n) && |other| > 1
    requires key != [] && Spells(n, key) && Lower(key[0]) == Lower(other[0])
    requires blank.kind == Mapping && blank.content == []
    requires WithKey(n, key[0], blank) == (n', i) && i < |n'.content| && i % 2 == 1
    requires LoadIndex(n'.content, key[0], 0) == Some(i)
    requires LoadLookup(child, other[1..]) == LoadLookup(n'.content[i], other[1..])
    ensures LoadLookup(n'.(content := n'.content[i := child]), other) == LoadLookup(n, other)
  {
    LookupReplaceValue(n', key[0], i, child, other);
    LookupWithKey(n, key, other, blank);
  }

  /** Creating one key does not show at a key apart from it. */
  lemma {:induction false} LookupEnsureApart(n: Node, key: Key, kind: ScalarKind, t: Node, p: Pos, other: Key)
    requires WellFormed(n) && FoldsOnce(n) && Spells(n, key) && Canonical(key) && Canonical(other)
    requires FoldApart(key, other) && Ensure(n, key, kind) == Ok((t, p))
    ensures LoadLookup(t, other) == LoadLookup(n, other)
    decreases |key|
  {
    if Lower(key[0]) != Lower(other[0]) {
      LookupEnsureElsewhere(n, key, kind, t, p, other);
    } else {
      ApartTails(key, other);
      var n', i, child, q := EnsureStepFits(n, key, kind, t, p);
      LookupEnsureApart(n'.content[i], key[1..], kind, child, q, other[1..]);
      LookupBelowKey(n, key, BlankFor(kind, false), n', i, child, other);
    }
  }

  // ---------------------------------------------------------------- updates, seen by the loader

  /** A file that the laws are about: no mapping holds two keys that fold alike, and the one key that an update
      may create is spelled in the file as the update spells it, as far as it is there. */
  ghost predicate FitKeys(n: Node, made: Key) {
    FoldsOnce(n) && Spells(n, made)
  }

  /** The tree that an update writes into: fit still, and unchanged for the loader away from the key. */
  lemma {:induction false} LocateApart(root: Node, key: Key, u: Update, tree: Node, p: Pos, made: Key)
    requires WellFormed(root) && FitKeys(root, made) && Canonical(key) && (u.createMissing ==> key == made)
    requires Locate(root, key, u) == Ok((tree, p))
    ensures FitKeys(tree, made)
    ensures forall other :: Canonical(other) && FoldApart(key, other) ==>
            LoadLookup(tree, other) == LoadLookup(root, other)
  {
    if Resolve(root, key).Err? {
      EnsureFits(root, key, u.kind, tree, p);
      forall other | Canonical(other) && FoldApart(key, other)
        ensures LoadLookup(tree, other) == LoadLookup(root, other)
      {
        LookupEnsureApart(root, key, u.kind, tree, p, other);
      }
    }
  }

  lemma {:induction false} WrittenFoldsOnce(u: Update)
    ensures FoldsOnce(Written(u)) && Written(u).kind != Mapping
  {
  }

  /** A successful update stores the written node under its key, and changes nothing for the loader at a key
      apart from it. */
  lemma {:induction false} ApplyStores(root: Node, key: Key, u: Update, overwrite: bool, t: Node, p: Pos, made: Key)
    requires WellFormed(root) && FitKeys(root, made) && Canonical(key) && (u.createMissing ==> key == made)
    requires ApplyAt(root, key, u, overwrite) == Ok((t, p))
    ensures WellFormed(t) && FitKeys(t, made)
    ensures LoadLookup(t, key) == Some(Written(u))
    ensures forall other :: Canonical(other) && FoldApart(key, other) ==>
            LoadLookup(t, other) == LoadLookup(root, other)
  {
    var tree := ApplySplit(root, key, u, overwrite, t, p);
    LocateApart(root, key, u, tree, p, made);
    WrittenFoldsOnce(u);
    PutFoldsOnce(tree, p, Written(u));
    PutSpells(tree, p, Written(u), made);
    ApplyWrites(root, key, u, overwrite, t, p);
    ResolveIsLoadLookup(t, key, p);
    forall other | Canonical(other) && FoldApart(key, other)
      ensures LoadLookup(t, other) == LoadLookup(root, other)
    {
      LookupPutApart(tree, key, p, Written(u), other);
    }
  }

  /** One update, seen at one key. */
  lemma {:induction false} StepStores(root: Node, u: Update, overwrite: bool, t: Node, p: Pos, key: Key, made: Key)
    requires WellFormed(root) && FitKeys(root, made) && Apply(root, u, overwrite) == Ok((t, p))
    requires u.createMissing ==> Segments(u.path) == made
    requires Canonical(Segments(u.path)) && Canonical(key) &&
             (Segments(u.path) == key || FoldApart(Segments(u.path), key))
    ensures WellFormed(t) && FitKeys(t, made)
    ensures LoadLookup(t, key) == if Segments(u.path) == key then Some(Written(u)) else LoadLookup(root, key)
  {
    ApplyStores(root, Segments(u.path), u, overwrite, t, p, made);
  }

  /** The last update of the batch that names a key, if any does. */
  function LastFor(us: seq<Update>, key: Key): (r: Option<Update>)
    ensures r.Some? ==> r.value in us && Segments(r.value.path) == key
    ensures r.None? ==> forall u :: u in us ==> Segments(u.path) != key
  {
    if us == [] then None
    else if Segments(us[|us| - 1].path) == key then Some(us[|us| - 1])
    else LastFor(us[..|us| - 1], key)
  }

  /** The file is a store: after a batch a key holds what the last update for it wrote, and a key that no
      update names holds what it held before. */
  lemma {:induction false} BatchStores(root: Node, us: seq<Update>, overwrite: bool, t: Node, ps: seq<Pos>, key: Key,
                                       made: Key)
    requires WellFormed(root) && FitKeys(root, made) && ApplyAll(root, us, overwrite) == Ok((t, ps))
    requires Canonical(key)
    requires forall u :: u in us ==> Canonical(Segments(u.path)) && (u.createMissing ==> Segments(u.path) == made)
    requires forall u :: u in us ==> Segments(u.path) == key || FoldApart(Segments(u.path), key)
    ensures WellFormed(t) && FitKeys(t, made)
    ensures LoadLookup(t, key) ==
            match LastFor(us, key)
            case Some(u) => Some(Written(u))
            case None => LoadLookup(root, key)
    decreases |us|
  {
    if us != [] {
      var n := |us| - 1;
      var tree := BatchSnoc(root, us, overwrite, t, ps);
      assert forall u :: u in us[..n] ==> u in us;
      BatchStores(root, us[..n], overwrite, tree, ps[..n], key, made);
      assert us[n] in us;
      StepStores(tree, us[n], overwrite, t, ps[n], key, made);
    }
  }
}
