/** When a batch of YAML updates succeeds, by what the tree holds before it. */
module YamlSuccess {
  import opened Text
  import opened PathLists
  import opened Placeholders
  import opened YamlTree
  import opened YamlUpdates
  import opened ConfigFile

  // ---------------------------------------------------------------- the writer's view of a tree

  /** The node under a key, as the writer finds it: by exact text, through mappings only. */
  function Find(n: Node, key: Key): Option<Node>
    decreases |key|
  {
    if key == [] then Some(n)
    else if n.kind != Mapping then None
    else
      match MapIndex(n.content, key[0], 0)
      case None => None
      case Some(i) => Find(n.content[i], key[1..])
  }

  /** The node that a path leads to, if it leads anywhere. */
  function Leads(n: Node, key: Key): Option<Node>
    requires key != []
  {
    match Resolve(n, key)
    case Err(_) => None
    case Ok(p) => Some(At(n, p))
  }

  /** A key without indexes among its segments leads where the writer finds it. */
  lemma {:induction false} FindIsLeads(n: Node, key: Key)
    requires Canonical(key)
    ensures Leads(n, key) == Find(n, key)
    decreases |key|
  {
    assert CanonicalSegment(key[0]);
    if n.kind == Mapping && MapIndex(n.content, key[0], 0).Some? {
      var i := MapIndex(n.content, key[0], 0).value;
      if |key| == 1 {
        assert key[1..] == [] && [i][1..] == [];
        assert Find(n.content[i], key[1..]) == Some(n.content[i]);
        assert Resolve(n, key) == Ok([i]) && At(n, [i]) == n.content[i];
      } else {
        FindBelow(n, key, i);
      }
    }
  }

  lemma {:induction false} FindBelow(n: Node, key: Key, i: nat)
    requires Canonical(key) && |key| > 1 && n.kind == Mapping && MapIndex(n.content, key[0], 0) == Some(i)
    ensures Leads(n, key) == Find(n, key)
    decreases |key|, 0
  {
    var child, rest := n.content[i], key[1..];
    forall k | 0 <= k < |rest| ensures CanonicalSegment(rest[k]) {
      assert rest[k] == key[k + 1];
    }
    assert CanonicalSegment(key[0]);
    FindIsLeads(child, rest);
    if child.kind != Scalar && Resolve(child, rest).Ok? {
      var q := Resolve(child, rest).value;
      assert ([i] + q)[1..] == q;
    }
  }

  /** One level of the writer's view. */
  lemma {:induction false} FindStep(n: Node, key: Key)
    requires n.kind == Mapping && key != []
    ensures Find(n, key) ==
            match MapIndex(n.content, key[0], 0)
            case None => None
            case Some(i) => Find(n.content[i], key[1..])
  {
  }

  /** Replacing the value under one key shows only at keys that start there. */
  lemma {:induction false} FindReplace(n: Node, segment: string, i: nat, child: Node, other: Key)
    requires n.kind == Mapping && i < |n.content| && i % 2 == 1 && other != []
    requires MapIndex(n.content, segment, 0) == Some(i)
    ensures Find(n.(content := n.content[i := child]), other) ==
            if other[0] == segment then Find(child, other[1..]) else Find(n, other)
    ensures other[0] == segment ==> Find(n, other) == Find(n.content[i], other[1..])
  {
    MapIndexPut(n.content, i, child, other[0], 0);
    FindStep(n, other);
    FindStep(n.(content := n.content[i := child]), other);
  }

  /** One level of a lookup of a canonical key. */
  lemma {:induction false} ResolvedStep(n: Node, key: Key, p: Pos)
    requires Canonical(key) && Resolve(n, key) == Ok(p)
    ensures n.kind == Mapping && p != [] && p[0] < |n.content| && p[0] % 2 == 1
    ensures MapIndex(n.content, key[0], 0) == Some(p[0])
    ensures |key| == 1 ==> p[1..] == []
    ensures |key| > 1 ==> Resolve(n.content[p[0]], key[1..]) == Ok(p[1..]) && Canonical(key[1..])
  {
    assert CanonicalSegment(key[0]);
    forall k | 0 <= k < |key[1..]| ensures CanonicalSegment(key[1..][k]) {
      assert key[1..][k] == key[k + 1];
    }
  }

  lemma {:induction false} LongerApart(a: Key, b: Key)
    requires Apart(a, b) && a != [] && b != [] && a[0] == b[0]
    ensures Apart(a[1..], b[1..]) && |a| > 1 && |b| > 1
  {
    TailsApart(a, b);
  }

  /** A write at one key does not show at a key apart from it. */
  lemma {:induction false} FindPut(n: Node, key: Key, p: Pos, m: Node, other: Key)
    requires Canonical(key) && other != [] && Apart(key, other) && Resolve(n, key) == Ok(p)
    ensures Find(Put(n, p, m), other) == Find(n, other)
    decreases |key|
  {
    ResolvedStep(n, key, p);
    var i := p[0];
    if key[0] == other[0] {
      LongerApart(key, other);
      FindPut(n.content[i], key[1..], p[1..], m, other[1..]);
    }
    FindReplace(n, key[0], i, Put(n.content[i], p[1..], m), other);
  }

  // ---------------------------------------------------------------- making a key

  /** The key can be made: as far as it is there, it leads through mappings. */
  predicate Makes(n: Node, key: Key)
    decreases |key|
  {
    key != [] && n.kind == Mapping &&
    (|key| == 1 ||
     match MapIndex(n.content, key[0], 0)
     case None => true
     case Some(i) => Makes(n.content[i], key[1..]))
  }

  lemma {:induction false} CanonicalTail(key: Key)
    requires Canonical(key) && |key| > 1
    ensures Canonical(key[1..]) && key[0] != ""
  {
    assert CanonicalSegment(key[0]);
    forall k | 0 <= k < |key[1..]| ensures CanonicalSegment(key[1..][k]) {
      assert key[1..][k] == key[k + 1];
    }
  }

  lemma {:induction false} EnsureExactly(n: Node, key: Key, kind: ScalarKind)
    requires Canonical(key)
    ensures Ensure(n, key, kind).Ok? <==> Makes(n, key)
    decreases |key|
  {
    assert CanonicalSegment(key[0]);
    if n.kind == Mapping && |key| > 1 {
      CanonicalTail(key);
      var (n', i) := WithKey(n, key[0], BlankFor(kind, false));
      EnsureExactly(n'.content[i], key[1..], kind);
    }
  }

  /** A key that was not there and is made leads to a fresh node. */
  lemma {:induction false} MadeIsBlank(n: Node, key: Key, kind: ScalarKind, t: Node, p: Pos)
    requires Canonical(key) && Find(n, key) == None && Ensure(n, key, kind) == Ok((t, p))
    ensures At(t, p) == EmptyNodeFor(kind)
    decreases |key|
  {
    var (n', i) := WithKey(n, key[0], BlankFor(kind, |key| == 1));
    if |key| == 1 {
      assert key[1..] == [];
      assert p == [i] && p[1..] == [];
    } else {
      CanonicalTail(key);
      var (child, q) := Ensure(n'.content[i], key[1..], kind).value;
      assert p[1..] == q;
      MadeIsBlank(n'.content[i], key[1..], kind, child, q);
    }
  }

  /** Writing a scalar or a list changes nothing about what can be made apart from it. */
  lemma {:induction false} MakesPut(n: Node, key: Key, p: Pos, m: Node, other: Key)
    requires Canonical(key) && other != [] && Apart(key, other) && Resolve(n, key) == Ok(p)
    ensures Makes(Put(n, p, m), other) <==> Makes(n, other)
    decreases |key|
  {
    ResolvedStep(n, key, p);
    var i := p[0];
    MapIndexPut(n.content, i, Put(n.content[i], p[1..], m), other[0], 0);
    if key[0] == other[0] {
      LongerApart(key, other);
      MakesPut(n.content[i], key[1..], p[1..], m, other[1..]);
    }
  }

  lemma {:induction false} MapIndexOther(content: seq<Node>, key: string, child: Node, other: string, from: nat)
    requires |content| % 2 == 0 && from % 2 == 0 && from <= |content| && key != other
    ensures MapIndex(content + [KeyNode(key), child], other, from) == MapIndex(content, other, from)
    decreases |content| - from
  {
    if from < |content| {
      MapIndexOther(content, key, child, other, from + 2);
    }
  }

  lemma {:induction false} FindWithOther(n: Node, segment: string, blank: Node, other: Key)
    requires WellFormed(n) && n.kind == Mapping && other != [] && segment != other[0]
    ensures Find(WithKey(n, segment, blank).0, other) == Find(n, other)
  {
    if MapIndex(n.content, segment, 0) == None {
      MapIndexOther(n.content, segment, blank, other[0], 0);
    }
    FindStep(n, other);
    FindStep(WithKey(n, segment, blank).0, other);
  }

  /** Making one key does not show at a key apart from it. */
  lemma {:induction false} FindEnsure(n: Node, key: Key, kind: ScalarKind, t: Node, p: Pos, other: Key)
    requires WellFormed(n) && Canonical(key) && other != [] && Apart(key, other) && Ensure(n, key, kind) == Ok((t, p))
    ensures Find(t, other) == Find(n, other)
    decreases |key|
  {
    var blank := BlankFor(kind, |key| == 1);
    var (n', i) := WithKey(n, key[0], blank);
    WithKeyGrows(n, key[0], blank);
    if key[0] == other[0] {
      LongerApart(key, other);
      CanonicalTail(key);
      var (child, q) := Ensure(n'.content[i], key[1..], kind).value;
      FindEnsure(n'.content[i], key[1..], kind, child, q, other[1..]);
      FindReplace(n', key[0], i, child, other);
      FindMade(n, key, blank, other);
    } else {
      FindWithOther(n, key[0], blank, other);
      if |key| > 1 {
        FindReplace(n', key[0], i, t.content[i], other);
      }
    }
  }

  lemma {:induction false} FindMade(n: Node, key: Key, blank: Node, other: Key)
    requires WellFormed(n) && n.kind == Mapping && key != [] && |other| > 1 && key[0] == other[0]
    requires blank == Node(Mapping, "!!map", "", [])
    ensures var (n', i) := WithKey(n, key[0], blank); Find(n'.content[i], other[1..]) == Find(n, other)
  {
    FindStep(n, other);
    FindStep(blank, other[1..]);
  }

  // ---------------------------------------------------------------- one update

  /** A node that holds no placeholder, or may be overwritten all the same. */
  predicate IsFree(n: Node, overwrite: bool) {
    overwrite || !ContainsPlaceholder(n)
  }

  lemma {:induction false} BlankIsFree(kind: ScalarKind, overwrite: bool)
    ensures IsFree(EmptyNodeFor(kind), overwrite)
  {
  }

  lemma {:induction false} SetExactly(n: Node, u: Update)
    requires WellFormed(n)
    ensures SetScalar(n, u).Ok? <==> n.kind == Written(u).kind
  {
  }

  lemma {:induction false} LocatedExactly(root: Node, key: Key, u: Update, overwrite: bool, tree: Node, p: Pos)
    requires WellFormed(root) && Canonical(key) && Locate(root, key, u) == Ok((tree, p))
    ensures ApplyAt(root, key, u, overwrite).Ok? <==>
            At(tree, p).kind == Written(u).kind && IsFree(At(tree, p), overwrite)
  {
    LocateGrows(root, key, u, tree, p);
    AtWellFormed(tree, p);
    SetExactly(At(tree, p), u);
  }

  /** An update succeeds exactly if the key leads to a free node of its kind, or leads nowhere and may and can be
      made. */
  lemma {:induction false} ApplyExactly(root: Node, key: Key, u: Update, overwrite: bool)
    requires WellFormed(root) && Canonical(key)
    ensures ApplyAt(root, key, u, overwrite).Ok? <==>
            match Find(root, key)
            case Some(n) => n.kind == Written(u).kind && IsFree(n, overwrite)
            case None => u.createMissing && Makes(root, key)
  {
    FindIsLeads(root, key);
    EnsureExactly(root, key, u.kind);
    if Locate(root, key, u).Ok? {
      var (tree, p) := Locate(root, key, u).value;
      LocatedExactly(root, key, u, overwrite, tree, p);
      if Find(root, key) == None {
        MadeIsBlank(root, key, u.kind, tree, p);
        BlankIsFree(u.kind, overwrite);
      }
    }
  }

  /** What a successful update changes in the writer's view. */
  lemma {:induction false} ApplyView(root: Node, key: Key, u: Update, overwrite: bool, t: Node, p: Pos, other: Key)
    requires WellFormed(root) && Canonical(key) && Canonical(other) && (key == other || Apart(key, other))
    requires ApplyAt(root, key, u, overwrite) == Ok((t, p))
    ensures WellFormed(t)
    ensures Find(t, other) == if key == other then Some(Written(u)) else Find(root, other)
  {
    var tree := ApplySplit(root, key, u, overwrite, t, p);
    ApplyWrites(root, key, u, overwrite, t, p);
    if key == other {
      FindIsLeads(t, key);
    } else {
      FindPut(tree, key, p, Written(u), other);
      if Resolve(root, key).Err? {
        FindEnsure(root, key, u.kind, tree, p, other);
      }
    }
  }

  lemma {:induction false} ApplyMakes(root: Node, key: Key, u: Update, overwrite: bool, t: Node, p: Pos, other: Key)
    requires WellFormed(root) && Canonical(key) && other != [] && Apart(key, other) && !u.createMissing
    requires ApplyAt(root, key, u, overwrite) == Ok((t, p))
    ensures Makes(t, other) <==> Makes(root, other)
  {
    var tree := ApplySplit(root, key, u, overwrite, t, p);
    MakesPut(root, key, p, Written(u), other);
  }

  // ---------------------------------------------------------------- the batch

  /** Updates for keys that are the same or apart, of one kind for each key; at most one key may be made. */
  ghost predicate Orderly(us: seq<Update>, made: Key) {
    && (forall i :: 0 <= i < |us| ==> Canonical(Segments(us[i].path)))
    && (forall i, j :: 0 <= i < |us| && 0 <= j < |us| ==> AlikeOrApart(us[i], us[j]))
    && (forall i :: 0 <= i < |us| && us[i].createMissing ==> Segments(us[i].path) == made)
  }

  predicate AlikeOrApart(u: Update, v: Update) {
    if Segments(u.path) == Segments(v.path) then Written(u).kind == Written(v).kind
    else Apart(Segments(u.path), Segments(v.path))
  }

  lemma {:induction false} OrderlyInit(us: seq<Update>, made: Key)
    requires Orderly(us, made) && us != []
    ensures Orderly(us[..|us| - 1], made)
  {
    var init := us[..|us| - 1];
    forall i, j | 0 <= i < |init| && 0 <= j < |init| ensures AlikeOrApart(init[i], init[j]) {
      assert AlikeOrApart(us[i], us[j]);
    }
  }

  /** The writer's view after a batch: the last update for a key decides; a key that no update names is as before. */
  lemma {:induction false} BatchView(root: Node, us: seq<Update>, overwrite: bool, t: Node, ps: seq<Pos>, key: Key,
                                     made: Key)
    requires WellFormed(root) && ApplyAll(root, us, overwrite) == Ok((t, ps)) && Orderly(us, made) && Canonical(key)
    requires forall u :: u in us ==> Segments(u.path) == key || Apart(Segments(u.path), key)
    ensures WellFormed(t)
    ensures Find(t, key) ==
            match LastFor(us, key)
            case Some(u) => Some(Written(u))
            case None => Find(root, key)
    ensures LastFor(us, key) == None && key == made ==> (Makes(t, key) <==> Makes(root, key))
    decreases |us|
  {
    if us != [] {
      var n := |us| - 1;
      var tree := BatchSnoc(root, us, overwrite, t, ps);
      OrderlyInit(us, made);
      assert forall u :: u in us[..n] ==> u in us;
      BatchView(root, us[..n], overwrite, tree, ps[..n], key, made);
      assert us[n] in us;
      ApplyView(tree, Segments(us[n].path), us[n], overwrite, t, ps[n], key);
      if LastFor(us, key) == None && key == made {
        ApplyMakes(tree, Segments(us[n].path), us[n], overwrite, t, ps[n], key);
      }
    }
  }

  /** When the update at a place of the batch succeeds, by the tree before the batch. If an earlier update was for the
      same key, what that one wrote must be free; else the key must lead to a free node of the update's kind, or the
      update may make the key, and it can be made. */
  ghost predicate Lands(root: Node, us: seq<Update>, i: nat, overwrite: bool)
    requires i < |us|
  {
    var key := Segments(us[i].path);
    match LastFor(us[..i], key)
    case Some(w) => IsFree(Written(w), overwrite)
    case None =>
      match Find(root, key)
      case Some(n) => n.kind == Written(us[i]).kind && IsFree(n, overwrite)
      case None => us[i].createMissing && Makes(root, key)
  }

  lemma {:induction false} NextLands(root: Node, us: seq<Update>, overwrite: bool, tree: Node, ps: seq<Pos>, made: Key,
                                     n: nat)
    requires WellFormed(root) && us != [] && n == |us| - 1 && Orderly(us, made)
    requires ApplyAll(root, us[..n], overwrite) == Ok((tree, ps))
    ensures Apply(tree, us[n], overwrite).Ok? <==> Lands(root, us, n, overwrite)
  {
    var init, u, key := us[..n], us[n], Segments(us[n].path);
    OrderlyInit(us, made);
    forall w | w in init ensures AlikeOrApart(w, u) {
      var i :| 0 <= i < |init| && init[i] == w;
      assert AlikeOrApart(us[i], us[n]);
    }
    BatchView(root, init, overwrite, tree, ps, key, made);
    ApplyExactly(tree, key, u, overwrite);
  }

  lemma {:induction false} LandsInit(root: Node, us: seq<Update>, n: nat, i: nat, overwrite: bool)
    requires i < n <= |us|
    ensures Lands(root, us[..n], i, overwrite) <==> Lands(root, us, i, overwrite)
  {
    assert us[..n][..i] == us[..i];
  }

  /** Every update of the batch lands. */
  ghost predicate AllLand(root: Node, us: seq<Update>, overwrite: bool) {
    forall i :: 0 <= i < |us| ==> Lands(root, us, i, overwrite)
  }

  lemma {:induction false} AllLandSnoc(root: Node, us: seq<Update>, overwrite: bool, n: nat)
    requires us != [] && n == |us| - 1
    ensures AllLand(root, us, overwrite) <==> AllLand(root, us[..n], overwrite) && Lands(root, us, n, overwrite)
  {
    forall i | 0 <= i < n ensures Lands(root, us[..n], i, overwrite) <==> Lands(root, us, i, overwrite) {
      LandsInit(root, us, n, i, overwrite);
    }
  }

  lemma {:induction false} BatchLast(root: Node, us: seq<Update>, overwrite: bool, n: nat)
    requires us != [] && n == |us| - 1
    ensures ApplyAll(root, us, overwrite).Ok? <==>
            ApplyAll(root, us[..n], overwrite).Ok? &&
            Apply(ApplyAll(root, us[..n], overwrite).value.0, us[n], overwrite).Ok?
  {
  }

  /** A batch succeeds exactly if each of its updates lands. */
  lemma {:induction false} BatchExactly(root: Node, us: seq<Update>, overwrite: bool, made: Key)
    requires WellFormed(root) && Orderly(us, made)
    ensures ApplyAll(root, us, overwrite).Ok? <==> AllLand(root, us, overwrite)
    decreases |us|
  {
    if us != [] {
      var n := |us| - 1;
      OrderlyInit(us, made);
      BatchExactly(root, us[..n], overwrite, made);
      AllLandSnoc(root, us, overwrite, n);
      BatchLast(root, us, overwrite, n);
      if ApplyAll(root, us[..n], overwrite).Ok? {
        var (tree, ps) := ApplyAll(root, us[..n], overwrite).value;
        NextLands(root, us, overwrite, tree, ps, made, n);
      }
    }
  }
}
