/** What a batch of YAML updates keeps and what it changes. */
module YamlUpdates {
  import opened Text
  import opened PathLists
  import opened Placeholders
  import opened YamlTree

  // ---------------------------------------------------------------- positions reached by lookup

  /** A position that takes only value slots at the mappings it passes through. */
  ghost predicate OnValues(n: Node, p: Pos)
    decreases |p|
  {
    || p == []
    || (&& p[0] < |n.content|
        && (n.kind == Mapping ==> p[0] % 2 == 1)
        && OnValues(n.content[p[0]], p[1..]))
  }

  lemma {:induction false} ResolveOnValues(n: Node, segs: seq<string>)
    requires segs != [] && Resolve(n, segs).Ok?
    ensures OnValues(n, Resolve(n, segs).value)
    decreases |segs|
  {
    var i := ChildIndex(n, segs[0]).value;
    if |segs| > 1 {
      ResolveOnValues(n.content[i], segs[1..]);
      assert Resolve(n, segs).value[1..] == Resolve(n.content[i], segs[1..]).value;
    }
  }

  /** Replacing a mapping's value does not move any key. */
  lemma {:induction false} MapIndexPut(content: seq<Node>, i: nat, child: Node, key: string, from: nat)
    requires i < |content| && i % 2 == 1 && from % 2 == 0
    ensures MapIndex(content[i := child], key, from) == MapIndex(content, key, from)
    decreases |content| - from
  {
    if from + 1 < |content| && !IsKey(content[from], key) {
      MapIndexPut(content, i, child, key, from + 2);
    }
  }

  /** A write that keeps the node's kind leaves every lookup that does not pass below it. */
  lemma {:induction false} ResolvePut(n: Node, p: Pos, m: Node, segs: seq<string>)
    requires HasPos(n, p) && OnValues(n, p) && m.kind == At(n, p).kind
    requires segs != [] && Resolve(n, segs).Ok? && !(p < Resolve(n, segs).value)
    ensures Resolve(Put(n, p, m), segs) == Resolve(n, segs)
    decreases |segs|
  {
    var q := Resolve(n, segs).value;
    var i := q[0];
    var n' := Put(n, p, m);
    if n.kind == Mapping {
      MapIndexPut(n.content, p[0], n'.content[p[0]], segs[0], 0);
    }
    assert ChildIndex(n', segs[0]) == ChildIndex(n, segs[0]) == Ok(i);
    if |segs| > 1 {
      assert q[1..] == Resolve(n.content[i], segs[1..]).value;
      if p[0] == i {
        PrefixTails(p, q);
        ResolvePut(n.content[i], p[1..], m, segs[1..]);
        assert p[1..] != [];
        assert n'.content[i].kind == n.content[i].kind;
      }
    }
  }

  // ---------------------------------------------------------------- growth

  /** The second tree is the first with keys and values appended to some of its mappings. */
  ghost predicate Grown(n: Node, t: Node)
    decreases n
  {
    && SameLabel(n, t)
    && |n.content| <= |t.content|
    && (n.kind != Mapping ==> |n.content| == |t.content|)
    && forall i :: 0 <= i < |n.content| ==> Grown(n.content[i], t.content[i])
  }

  lemma {:induction false} GrownRefl(n: Node)
    ensures Grown(n, n)
    decreases n
  {
    forall i | 0 <= i < |n.content|
      ensures Grown(n.content[i], n.content[i])
    {
      GrownRefl(n.content[i]);
    }
  }

  lemma {:induction false} GrownAt(n: Node, t: Node, q: Pos)
    requires Grown(n, t) && HasPos(n, q)
    ensures HasPos(t, q) && Grown(At(n, q), At(t, q))
    decreases |q|
  {
    if q != [] {
      GrownAt(n.content[q[0]], t.content[q[0]], q[1..]);
    }
  }

  /** A node without mappings inside. */
  ghost predicate Flat(n: Node)
    decreases n
  {
    n.kind != Mapping && forall i :: 0 <= i < |n.content| ==> Flat(n.content[i])
  }

  lemma {:induction false} GrownFlat(n: Node, t: Node)
    requires Grown(n, t) && Flat(n)
    ensures n == t
    decreases n
  {
    forall i | 0 <= i < |n.content|
      ensures n.content[i] == t.content[i]
    {
      GrownFlat(n.content[i], t.content[i]);
    }
    assert n.content == t.content;
  }

  lemma {:induction false} GrownMapIndex(content: seq<Node>, content': seq<Node>, key: string, from: nat)
    requires |content| <= |content'|
    requires forall i :: 0 <= i < |content| ==> SameLabel(content[i], content'[i])
    requires MapIndex(content, key, from).Some?
    ensures MapIndex(content', key, from) == MapIndex(content, key, from)
    decreases |content| - from
  {
    if !IsKey(content[from], key) {
      GrownMapIndex(content, content', key, from + 2);
    }
  }

  /** Growth keeps every lookup that succeeded. */
  lemma {:induction false} GrownResolve(n: Node, t: Node, segs: seq<string>)
    requires Grown(n, t) && segs != [] && Resolve(n, segs).Ok?
    ensures Resolve(t, segs) == Resolve(n, segs)
    decreases |segs|
  {
    var i := ChildIndex(n, segs[0]).value;
    if n.kind == Mapping {
      assert forall j :: 0 <= j < |n.content| ==> Grown(n.content[j], t.content[j]);
      GrownMapIndex(n.content, t.content, segs[0], 0);
    }
    assert Grown(n.content[i], t.content[i]);
    if |segs| > 1 {
      GrownResolve(n.content[i], t.content[i], segs[1..]);
    }
  }

  lemma {:induction false} MapIndexAppend(content: seq<Node>, key: string, child: Node, from: nat)
    requires |content| % 2 == 0 && from % 2 == 0 && from <= |content|
    requires MapIndex(content, key, from) == None
    ensures MapIndex(content + [KeyNode(key), child], key, from) == Some(|content| + 1)
    decreases |content| - from
  {
    if from < |content| {
      MapIndexAppend(content, key, child, from + 2);
    }
  }

  lemma GrownChild(n: Node, i: nat, child: Node)
    requires WellFormed(n) && i < |n.content| && Grown(n.content[i], child) && WellFormed(child)
    ensures Grown(n, n.(content := n.content[i := child])) && WellFormed(n.(content := n.content[i := child]))
  {
    forall j | 0 <= j < |n.content|
      ensures Grown(n.content[j], n.content[i := child][j])
    {
      GrownRefl(n.content[j]);
    }
  }

  lemma {:induction false} GrownTrans(a: Node, b: Node, c: Node)
    requires Grown(a, b) && Grown(b, c)
    ensures Grown(a, c)
    decreases a
  {
    forall i | 0 <= i < |a.content|
      ensures Grown(a.content[i], c.content[i])
    {
      GrownTrans(a.content[i], b.content[i], c.content[i]);
    }
  }

  /** Making a key present only grows the mapping, and the key then leads to the returned index. */
  lemma WithKeyGrows(n: Node, key: string, blank: Node)
    requires WellFormed(n) && n.kind == Mapping && WellFormed(blank)
    ensures var (n', i) := WithKey(n, key, blank);
            && WellFormed(n') && Grown(n, n') && n'.kind == Mapping
            && i % 2 == 1 && MapIndex(n'.content, key, 0) == Some(i)
  {
    if MapIndex(n.content, key, 0) == None {
      MapIndexAppend(n.content, key, blank, 0);
    }
    forall j | 0 <= j < |n.content|
      ensures Grown(n.content[j], n.content[j])
    {
      GrownRefl(n.content[j]);
    }
  }

  /** Creating a missing path only grows the tree, and the path then resolves to the created node. */
  lemma {:induction false} EnsureGrows(n: Node, segs: seq<string>, kind: ScalarKind, t: Node, p: Pos)
    requires WellFormed(n) && segs != [] && Ensure(n, segs, kind) == Ok((t, p))
    ensures WellFormed(t) && Grown(n, t)
    ensures Resolve(t, segs) == Ok(p)
    decreases |segs|
  {
    var blank := BlankFor(kind, |segs| == 1);
    var (n', i) := WithKey(n, segs[0], blank);
    WithKeyGrows(n, segs[0], blank);
    if |segs| > 1 {
      var (child, p') := Ensure(n'.content[i], segs[1..], kind).value;
      EnsureGrows(n'.content[i], segs[1..], kind, child, p');
      GrownChild(n', i, child);
      GrownTrans(n, n', t);
      MapIndexPut(n'.content, i, child, segs[0], 0);
    }
  }

  // ---------------------------------------------------------------- one update

  /** The node that an update leaves at the position it writes. */
  function Written(u: Update): Node {
    match u.kind
    case StringKind => Node(Scalar, "!!str", u.value, [])
    case BoolKind => Node(Scalar, "!!bool", u.value, [])
    case IntKind => Node(Scalar, "!!int", u.value, [])
    case StringSliceKind => Node(Sequence, "!!seq", "", StringNodes(Normalize(u.values)))
  }

  lemma WrittenFlat(u: Update)
    ensures Flat(Written(u)) && WellFormed(Written(u))
  {
  }

  lemma SetScalarWrites(n: Node, u: Update)
    requires WellFormed(n) && SetScalar(n, u).Ok?
    ensures SetScalar(n, u).value == Written(u) && Written(u).kind == n.kind
  {
  }

  /** The tree an update writes into: the root, grown if the path had to be created. */
  lemma LocateGrows(root: Node, key: seq<string>, u: Update, tree: Node, p: Pos)
    requires WellFormed(root) && key != [] && Locate(root, key, u) == Ok((tree, p))
    ensures WellFormed(tree) && Grown(root, tree) && HasPos(tree, p) && OnValues(tree, p)
    ensures Resolve(tree, key) == Ok(p)
  {
    if Resolve(root, key).Ok? {
      GrownRefl(root);
    } else {
      EnsureGrows(root, key, u.kind, tree, p);
    }
    ResolveOnValues(tree, key);
  }

  /** An update is a growth of the tree followed by one write that keeps the node's kind. */
  lemma ApplySplit(root: Node, key: seq<string>, u: Update, overwrite: bool, t: Node, p: Pos)
    returns (tree: Node)
    requires WellFormed(root) && key != [] && ApplyAt(root, key, u, overwrite) == Ok((t, p))
    ensures Locate(root, key, u) == Ok((tree, p))
    ensures WellFormed(tree) && Grown(root, tree) && HasPos(tree, p) && OnValues(tree, p)
    ensures Resolve(tree, key) == Ok(p)
    ensures t == Put(tree, p, Written(u)) && Written(u).kind == At(tree, p).kind
    ensures overwrite || !ContainsPlaceholder(At(tree, p))
  {
    tree := Locate(root, key, u).value.0;
    LocateGrows(root, key, u, tree, p);
    AtWellFormed(tree, p);
    SetScalarWrites(At(tree, p), u);
  }

  /** A successful update leaves the written node where the path leads. */
  lemma ApplyWrites(root: Node, key: seq<string>, u: Update, overwrite: bool, t: Node, p: Pos)
    requires WellFormed(root) && key != [] && ApplyAt(root, key, u, overwrite) == Ok((t, p))
    ensures WellFormed(t)
    ensures HasPos(t, p) && At(t, p) == Written(u)
    ensures Resolve(t, key) == Ok(p)
  {
    var tree := ApplySplit(root, key, u, overwrite, t, p);
    WrittenFlat(u);
    AtPut(tree, p, Written(u));
    PutWellFormed(tree, p, Written(u));
    ResolvePut(tree, p, Written(u), key);
  }

  /** A successful update keeps the label of every node not at or below the written position. */
  lemma ApplyFrame(root: Node, key: seq<string>, u: Update, overwrite: bool, t: Node, p: Pos, q: Pos)
    requires WellFormed(root) && key != [] && ApplyAt(root, key, u, overwrite) == Ok((t, p))
    requires HasPos(root, q) && !(p <= q)
    ensures HasPos(t, q) && SameLabel(At(t, q), At(root, q))
    ensures Flat(At(root, q)) && !(q <= p) ==> At(t, q) == At(root, q)
  {
    var tree := ApplySplit(root, key, u, overwrite, t, p);
    GrownAt(root, tree, q);
    PutFrame(tree, p, Written(u), q);
    if Flat(At(root, q)) {
      GrownFlat(At(root, q), At(tree, q));
    }
  }

  /** A successful update keeps every lookup that does not pass below the written position. */
  lemma ApplyLookup(root: Node, key: seq<string>, u: Update, overwrite: bool, t: Node, p: Pos, segs: seq<string>)
    requires WellFormed(root) && key != [] && ApplyAt(root, key, u, overwrite) == Ok((t, p))
    requires segs != [] && Resolve(root, segs).Ok? && !(p < Resolve(root, segs).value)
    ensures Resolve(t, segs) == Resolve(root, segs)
  {
    var tree := ApplySplit(root, key, u, overwrite, t, p);
    GrownResolve(root, tree, segs);
    ResolvePut(tree, p, Written(u), segs);
  }

  // ---------------------------------------------------------------- the batch

  /** A non-empty batch is a shorter batch followed by one update. */
  lemma BatchSnoc(root: Node, us: seq<Update>, overwrite: bool, t: Node, ps: seq<Pos>)
    returns (tree: Node)
    requires WellFormed(root) && us != [] && ApplyAll(root, us, overwrite) == Ok((t, ps))
    ensures |ps| == |us| && ApplyAll(root, us[..|us| - 1], overwrite) == Ok((tree, ps[..|us| - 1]))
    ensures WellFormed(tree) && Apply(tree, us[|us| - 1], overwrite) == Ok((t, ps[|us| - 1]))
  {
    var init := us[..|us| - 1];
    var (tree', ps') := ApplyAll(root, init, overwrite).value;
    tree := tree';
    assert ps[..|us| - 1] == ps';
    BatchWellFormed(root, init, overwrite);
  }

  lemma StepFrame(root: Node, u: Update, overwrite: bool, t: Node, p: Pos, q: Pos)
    requires WellFormed(root) && Apply(root, u, overwrite) == Ok((t, p))
    requires HasPos(root, q) && !(p <= q)
    ensures HasPos(t, q) && SameLabel(At(t, q), At(root, q))
  {
    ApplyFrame(root, Segments(u.path), u, overwrite, t, p, q);
  }

  lemma StepLookup(root: Node, u: Update, overwrite: bool, t: Node, p: Pos, segs: seq<string>, q: Pos)
    requires WellFormed(root) && Apply(root, u, overwrite) == Ok((t, p))
    requires segs != [] && Resolve(root, segs) == Ok(q) && !(p < q)
    ensures Resolve(t, segs) == Ok(q)
  {
    ApplyLookup(root, Segments(u.path), u, overwrite, t, p, segs);
  }

  lemma StepWrites(root: Node, u: Update, overwrite: bool, t: Node, p: Pos)
    requires WellFormed(root) && Apply(root, u, overwrite) == Ok((t, p))
    ensures WellFormed(t)
    ensures WrittenAt(t, p, u)
  {
    ApplyWrites(root, Segments(u.path), u, overwrite, t, p);
  }

  /** The update's node stands at the position, and its path leads there. */
  ghost predicate WrittenAt(t: Node, p: Pos, u: Update) {
    HasPos(t, p) && At(t, p) == Written(u) && Resolve(t, Segments(u.path)) == Ok(p)
  }

  lemma {:induction false} BatchWellFormed(root: Node, us: seq<Update>, overwrite: bool)
    requires WellFormed(root) && ApplyAll(root, us, overwrite).Ok?
    ensures WellFormed(ApplyAll(root, us, overwrite).value.0)
  {
    if us != [] {
      var init := us[..|us| - 1];
      BatchWellFormed(root, init, overwrite);
      var tree, u := ApplyAll(root, init, overwrite).value.0, us[|us| - 1];
      var (t, p) := Apply(tree, u, overwrite).value;
      StepWrites(tree, u, overwrite, t, p);
    }
  }

  /** Frame: a node at a position that is neither at nor below an updated one keeps its kind, tag and text. */
  lemma {:induction false} BatchFrame(root: Node, us: seq<Update>, overwrite: bool, t: Node, ps: seq<Pos>, q: Pos)
    requires WellFormed(root) && ApplyAll(root, us, overwrite) == Ok((t, ps)) && HasPos(root, q)
    requires forall i :: 0 <= i < |ps| ==> !(ps[i] <= q)
    ensures HasPos(t, q) && SameLabel(At(t, q), At(root, q))
    decreases |us|
  {
    if us != [] {
      var n := |us| - 1;
      var tree := BatchSnoc(root, us, overwrite, t, ps);
      BatchFrame(root, us[..n], overwrite, tree, ps[..n], q);
      StepFrame(tree, us[n], overwrite, t, ps[n], q);
    }
  }

  /** Stability: a path that resolved before the batch resolves to the same position after it, unless the
      batch wrote strictly above that position. Created keys never take over an existing lookup. */
  lemma {:induction false} BatchLookup(root: Node, us: seq<Update>, overwrite: bool, t: Node, ps: seq<Pos>,
                                       segs: seq<string>, q: Pos)
    requires WellFormed(root) && ApplyAll(root, us, overwrite) == Ok((t, ps))
    requires segs != [] && Resolve(root, segs) == Ok(q)
    requires forall i :: 0 <= i < |ps| ==> !(ps[i] < q)
    ensures Resolve(t, segs) == Ok(q)
    decreases |us|
  {
    if us != [] {
      var n := |us| - 1;
      var tree := BatchSnoc(root, us, overwrite, t, ps);
      BatchLookup(root, us[..n], overwrite, tree, ps[..n], segs, q);
      StepLookup(tree, us[n], overwrite, t, ps[n], segs, q);
    }
  }

  /** Two writes that cannot disturb each other: apart in the tree, or the same node at the same place. */
  ghost predicate Undisturbed(p: Pos, u: Update, later: Pos, laterUpdate: Update) {
    !Comparable(p, later) || (p == later && Written(u) == Written(laterUpdate))
  }

  /** What one write put in place, a later undisturbing write leaves in place. */
  lemma ApplyKeepsWritten(tree: Node, u: Update, overwrite: bool, t: Node, q: Pos, p: Pos, w: Update)
    requires WellFormed(tree) && Apply(tree, u, overwrite) == Ok((t, q))
    requires WrittenAt(tree, p, w) && Undisturbed(p, w, q, u)
    ensures WrittenAt(t, p, w)
  {
    ApplyLookup(tree, Segments(u.path), u, overwrite, t, q, Segments(w.path));
    if Comparable(p, q) {
      ApplyWrites(tree, Segments(u.path), u, overwrite, t, q);
    } else {
      WrittenFlat(w);
      ApplyFrame(tree, Segments(u.path), u, overwrite, t, q, p);
    }
  }

  /** Last writer wins: the last write at a node decides what it holds, and its path leads there. */
  lemma {:induction false} BatchLastWriter(root: Node, us: seq<Update>, overwrite: bool, t: Node, ps: seq<Pos>, i: nat)
    requires WellFormed(root) && ApplyAll(root, us, overwrite) == Ok((t, ps)) && i < |us|
    requires forall j :: i < j < |us| ==> Undisturbed(ps[i], us[i], ps[j], us[j])
    ensures WrittenAt(t, ps[i], us[i])
    decreases |us|
  {
    var n := |us| - 1;
    var tree := BatchSnoc(root, us, overwrite, t, ps);
    if i == n {
      StepWrites(tree, us[n], overwrite, t, ps[n]);
    } else {
      BatchLastWriter(root, us[..n], overwrite, tree, ps[..n], i);
      ApplyKeepsWritten(tree, us[n], overwrite, t, ps[n], ps[i], us[i]);
    }
  }

  // ---------------------------------------------------------------- placeholders

  predicate IsPlaceholderAt(n: Node, q: Pos) {
    HasPos(n, q) && At(n, q).kind == Scalar && HasPlaceholder(At(n, q).value)
  }

  lemma {:induction false} PlaceholderBelow(n: Node, r: Pos)
    requires WellFormed(n) && IsPlaceholderAt(n, r)
    ensures ContainsPlaceholder(n)
    decreases |r|
  {
    if r != [] {
      PlaceholderBelow(n.content[r[0]], r[1..]);
    }
  }

  /** Without the overwrite option an update never lands at or above a placeholder. */
  lemma ApplySparesPlaceholder(root: Node, key: seq<string>, u: Update, t: Node, p: Pos, q: Pos)
    requires WellFormed(root) && key != [] && ApplyAt(root, key, u, false) == Ok((t, p))
    requires IsPlaceholderAt(root, q)
    ensures !(p <= q) && HasPos(t, q) && At(t, q) == At(root, q)
  {
    var tree := ApplySplit(root, key, u, false, t, p);
    GrownAt(root, tree, q);
    AtWellFormed(root, q);
    AtWellFormed(tree, p);
    if p <= q {
      var r := q[|p|..];
      assert q == p + r;
      AtBelow(tree, p, r);
      PlaceholderBelow(At(tree, p), r);
      assert false;
    }
    ApplyFrame(root, key, u, false, t, p, q);
    ApplyWrites(root, key, u, false, t, p);
    AtWellFormed(t, q);
  }

  /** Without the overwrite option, a successful batch leaves every scalar that holds a placeholder as it was,
      also the ones nested inside sequences. */
  lemma {:induction false} BatchSparesPlaceholder(root: Node, us: seq<Update>, t: Node, ps: seq<Pos>, q: Pos)
    requires WellFormed(root) && ApplyAll(root, us, false) == Ok((t, ps)) && IsPlaceholderAt(root, q)
    ensures HasPos(t, q) && At(t, q) == At(root, q)
    decreases |us|
  {
    if us != [] {
      var n := |us| - 1;
      var tree := BatchSnoc(root, us, false, t, ps);
      BatchSparesPlaceholder(root, us[..n], tree, ps[..n], q);
      ApplySparesPlaceholder(tree, Segments(us[n].path), us[n], t, ps[n], q);
    }
  }
}
