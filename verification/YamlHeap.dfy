/** The YAML writer as it works: nodes on the heap, walked by loops and changed in place. A layout says which
    node stands at each position; the heap shows a tree when every node carries the tree's label there. */
module YamlHeap {
  import opened Text
  import opened PathLists
  import opened Placeholders
  import opened YamlTree
  import opened YamlUpdates

  class YamlNode {
    var kind: Kind
    var tag: string
    var value: string
    var content: seq<YamlNode>
    ghost var place: Pos        // where the node stands, which keeps nodes apart

    constructor (kind: Kind, tag: string, value: string)
      ensures this.kind == kind && this.tag == tag && this.value == value && content == []
    {
      this.kind, this.tag, this.value := kind, tag, value;
      content := [];
    }
  }

  type Layout = map<Pos, YamlNode>

  // ---------------------------------------------------------------- the heap shows a tree

  ghost predicate SameAs(h: YamlNode, n: Node)
    reads h
  {
    h.kind == n.kind && h.tag == n.tag && h.value == n.value && |h.content| == |n.content|
  }

  /** The children of a node stand at the positions below it. */
  ghost predicate Linked(at: Layout, p: Pos)
    requires p in at
    reads at[p]
  {
    forall i :: 0 <= i < |at[p].content| ==> p + [i] in at && at[p + [i]] == at[p].content[i]
  }

  ghost predicate Covers(at: Layout, tree: Node) {
    forall p :: p in at <==> HasPos(tree, p)
  }

  ghost predicate ShownAt(at: Layout, tree: Node, p: Pos)
    requires p in at && HasPos(tree, p)
    reads at[p]
  {
    SameAs(at[p], At(tree, p)) && Linked(at, p) && at[p].place == p
  }

  /** Every node of the layout is as the tree says. */
  ghost predicate Shows(at: Layout, tree: Node)
    reads at.Values
  {
    Covers(at, tree) && forall p :: p in at ==> HasPos(tree, p) && ShownAt(at, tree, p)
  }

  // ---------------------------------------------------------------- writes, seen as trees

  /** Positions that are not at or below a write are as they were. */
  lemma {:induction false} PutElsewhere(n: Node, p: Pos, m: Node, q: Pos)
    requires HasPos(n, p) && !(p <= q)
    ensures HasPos(Put(n, p, m), q) <==> HasPos(n, q)
    decreases |p|
  {
    if q != [] && p[0] == q[0] {
      PrefixTails(p, q);
      PutElsewhere(n.content[p[0]], p[1..], m, q[1..]);
    }
  }

  lemma {:induction false} PutBelow(n: Node, p: Pos, m: Node, r: Pos)
    requires HasPos(n, p)
    ensures HasPos(Put(n, p, m), p + r) <==> HasPos(m, r)
    ensures HasPos(m, r) ==> At(Put(n, p, m), p + r) == At(m, r)
  {
    AtPut(n, p, m);
    AtBelow(Put(n, p, m), p, r);
  }

  ghost predicate Alike(a: Node, b: Node) {
    SameLabel(a, b) && |a.content| == |b.content|
  }

  /** A write of a node that differs only in its own label moves nothing and relabels only itself. */
  lemma {:induction false} PutLabel(n: Node, p: Pos, m: Node, q: Pos)
    requires HasPos(n, p) && m.content == At(n, p).content
    ensures HasPos(Put(n, p, m), q) <==> HasPos(n, q)
    ensures HasPos(n, q) && q != p ==> Alike(At(Put(n, p, m), q), At(n, q))
    ensures HasPos(Put(n, p, m), p) && At(Put(n, p, m), p) == m
  {
    AtPut(n, p, m);
    if p <= q {
      var r := q[|p|..];
      assert q == p + r;
      PutBelow(n, p, m, r);
      AtBelow(n, p, r);
    } else {
      PutElsewhere(n, p, m, q);
      if HasPos(n, q) {
        PutFrame(n, p, m, q);
      }
    }
  }

  /** A write that adds a leaf at the end of a node adds one position. */
  lemma {:induction false} PutLeaf(n: Node, p: Pos, leaf: Node, q: Pos)
    requires HasPos(n, p) && leaf.content == []
    ensures var before := At(n, p);
            var m := before.(content := before.content + [leaf]);
            var last := p + [|before.content|];
            && (HasPos(Put(n, p, m), q) <==> HasPos(n, q) || q == last)
            && (HasPos(n, q) && q != p ==> Alike(At(Put(n, p, m), q), At(n, q)))
            && !HasPos(n, last) && HasPos(Put(n, p, m), last) && At(Put(n, p, m), last) == leaf
  {
    var before := At(n, p);
    var m := before.(content := before.content + [leaf]);
    var last := [|before.content|];
    AtBelow(n, p, last);
    PutBelow(n, p, m, last);
    if p <= q {
      var r := q[|p|..];
      assert q == p + r;
      PutBelow(n, p, m, r);
      AtBelow(n, p, r);
      if r != [] && r[0] == |before.content| {
        assert HasPos(m, r) <==> r[1..] == [];
        assert r == [r[0]] + r[1..];
      }
    } else {
      PutElsewhere(n, p, m, q);
      if HasPos(n, q) {
        PutFrame(n, p, m, q);
      }
    }
  }

  /** A write of a node without children leaves nothing below it. */
  lemma {:induction false} PutBare(n: Node, p: Pos, m: Node, q: Pos)
    requires HasPos(n, p) && m.content == []
    ensures HasPos(Put(n, p, m), q) <==> HasPos(n, q) && !(p < q)
    ensures HasPos(n, q) && !(p <= q) ==> Alike(At(Put(n, p, m), q), At(n, q))
    ensures HasPos(Put(n, p, m), p) && At(Put(n, p, m), p) == m
  {
    AtPut(n, p, m);
    if p <= q {
      var r := q[|p|..];
      assert q == p + r;
      PutBelow(n, p, m, r);
      assert r == [] ==> q == p;
    } else {
      PutElsewhere(n, p, m, q);
      if HasPos(n, q) {
        PutFrame(n, p, m, q);
      }
    }
  }

  // ---------------------------------------------------------------- writes, on the heap

  /** Everything but the node at p is as the tree says. */
  ghost predicate ShowsBut(at: Layout, tree: Node, p: Pos)
    reads at.Values
  {
    Covers(at, tree) && p in at && forall q :: q in at && q != p ==> HasPos(tree, q) && ShownAt(at, tree, q)
  }

  lemma {:induction false} Relabelled(at: Layout, tree: Node, p: Pos, m: Node)
    requires ShowsBut(at, tree, p) && HasPos(tree, p) && Linked(at, p) && at[p].place == p
    requires SameAs(at[p], m) && m.content == At(tree, p).content
    ensures Shows(at, Put(tree, p, m))
  {
    var tree' := Put(tree, p, m);
    forall q ensures q in at <==> HasPos(tree', q) {
      PutLabel(tree, p, m, q);
    }
    forall q | q in at ensures HasPos(tree', q) && ShownAt(at, tree', q) {
      PutLabel(tree, p, m, q);
    }
  }

  /** The node at p is as the tree says, but for one more child at the end. */
  ghost predicate Extended(at: Layout, p: Pos, before: Node, h: YamlNode)
    requires p in at
    reads at[p]
  {
    && at[p].kind == before.kind && at[p].tag == before.tag && at[p].value == before.value
    && |at[p].content| == |before.content| + 1 && at[p].content[|before.content|] == h
    && forall i :: 0 <= i < |before.content| ==> p + [i] in at && at[p + [i]] == at[p].content[i]
  }

  function WithLeaf(n: Node, leaf: Node): Node {
    n.(content := n.content + [leaf])
  }

  /** A node elsewhere, after one more child at p. */
  lemma {:induction false} LeafAddedElsewhere(at: Layout, tree: Node, tree': Node, last: Pos, h: YamlNode, q: Pos)
    requires q in at && q != last && last !in at && HasPos(tree, q) && ShownAt(at, tree, q)
    requires HasPos(tree', q) && Alike(At(tree', q), At(tree, q))
    ensures ShownAt(at[last := h], tree', q)
  {
  }

  /** The node that got the child. */
  lemma {:induction false} LeafAddedHere(at: Layout, tree': Node, p: Pos, n: Node, last: Pos, h: YamlNode, leaf: Node)
    requires p in at && last !in at && last == p + [|n.content|] && Extended(at, p, n, h) && at[p].place == p
    requires HasPos(tree', p) && At(tree', p) == WithLeaf(n, leaf)
    ensures ShownAt(at[last := h], tree', p)
  {
    var at' := at[last := h];
    forall i | 0 <= i < |at'[p].content| ensures p + [i] in at' && at'[p + [i]] == at'[p].content[i] {
      if i < |n.content| {
        assert p + [i] in at;
      }
    }
  }

  /** The child. */
  lemma {:induction false} LeafAddedLast(at: Layout, tree': Node, last: Pos, h: YamlNode, leaf: Node)
    requires HasPos(tree', last) && At(tree', last) == leaf && leaf.content == [] && SameAs(h, leaf) && h.place == last
    ensures ShownAt(at[last := h], tree', last)
  {
  }

  lemma {:induction false} LeafAddedAt(at: Layout, tree: Node, p: Pos, n: Node, last: Pos, h: YamlNode, leaf: Node,
                                       tree': Node, q: Pos)
    requires ShowsBut(at, tree, p) && HasPos(tree, p) && At(tree, p) == n && last == p + [|n.content|]
    requires leaf.content == [] && SameAs(h, leaf) && h !in at.Values
    requires at[p].place == p && h.place == last && Extended(at, p, n, h)
    requires tree' == Put(tree, p, WithLeaf(n, leaf)) && q in at[last := h]
    ensures HasPos(tree', q) && ShownAt(at[last := h], tree', q)
  {
    PutLeaf(tree, p, leaf, q);
    AtPut(tree, p, WithLeaf(n, leaf));
    assert last !in at;
    if q == last {
      LeafAddedLast(at, tree', last, h, leaf);
    } else if q == p {
      LeafAddedHere(at, tree', p, n, last, h, leaf);
    } else {
      assert ShownAt(at, tree, q);
      LeafAddedElsewhere(at, tree, tree', last, h, q);
    }
  }

  lemma {:induction false} LeafAdded(at: Layout, tree: Node, p: Pos, h: YamlNode, leaf: Node)
    requires ShowsBut(at, tree, p) && HasPos(tree, p) && leaf.content == [] && SameAs(h, leaf) && h !in at.Values
    requires at[p].place == p && h.place == p + [|At(tree, p).content|]
    requires Extended(at, p, At(tree, p), h)
    ensures Shows(at[p + [|At(tree, p).content|] := h], Put(tree, p, WithLeaf(At(tree, p), leaf)))
  {
    var last := p + [|At(tree, p).content|];
    var at', tree' := at[last := h], Put(tree, p, WithLeaf(At(tree, p), leaf));
    forall q ensures q in at' <==> HasPos(tree', q) {
      PutLeaf(tree, p, leaf, q);
    }
    PutLeaf(tree, p, leaf, last);
    forall q | q in at' ensures HasPos(tree', q) && ShownAt(at', tree', q) {
      LeafAddedAt(at, tree, p, At(tree, p), last, h, leaf, tree', q);
    }
  }

  /** The layout without what lies below a position. */
  function Pruned(at: Layout, p: Pos): Layout {
    map q | q in at && !(p < q) :: at[q]
  }

  lemma {:induction false} Bared(at: Layout, tree: Node, p: Pos, m: Node)
    requires ShowsBut(at, tree, p) && HasPos(tree, p) && m.content == [] && SameAs(at[p], m) && at[p].place == p
    ensures Shows(Pruned(at, p), Put(tree, p, m))
  {
    var at', tree' := Pruned(at, p), Put(tree, p, m);
    forall q ensures q in at' <==> HasPos(tree', q) {
      PutBare(tree, p, m, q);
    }
    forall q | q in at' ensures HasPos(tree', q) && ShownAt(at', tree', q) {
      PutBare(tree, p, m, q);
      if q != p {
        assert ShownAt(at, tree, q);
        forall i: nat | i < |at[q].content| ensures !(p < q + [i]) {
        }
      }
    }
  }

  // ---------------------------------------------------------------- looking up

  lemma {:induction false} ChildShown(at: Layout, tree: Node, p: Pos, i: nat)
    requires Shows(at, tree) && p in at && i < |at[p].content|
    ensures HasPos(tree, p) && |At(tree, p).content| == |at[p].content|
    ensures p + [i] in at && at[p + [i]] == at[p].content[i]
    ensures HasPos(tree, p + [i]) && At(tree, p + [i]) == At(tree, p).content[i]
    ensures SameAs(at[p].content[i], At(tree, p).content[i])
  {
    assert ShownAt(at, tree, p);
    AtBelow(tree, p, [i]);
    assert ShownAt(at, tree, p + [i]);
  }

  /** yamlMappingValue: a loop over the keys, two places at a time. */
  method MappingValue(h: YamlNode, key: string, ghost at: Layout, ghost tree: Node, ghost p: Pos)
    returns (r: Option<nat>)
    requires Shows(at, tree) && p in at && at[p] == h
    ensures HasPos(tree, p) && |At(tree, p).content| == |h.content|
    ensures r == MapIndex(At(tree, p).content, key, 0)
  {
    assert ShownAt(at, tree, p);
    var index := 0;
    while index + 1 < |h.content|
      invariant MapIndex(At(tree, p).content, key, 0) == MapIndex(At(tree, p).content, key, index)
    {
      ChildShown(at, tree, p, index);
      var keyNode := h.content[index];
      if keyNode.kind == Scalar && keyNode.value == key {
        return Some(index + 1);
      }
      index := index + 2;
    }
    return None;
  }

  /** yamlChildValue. */
  method ChildValue(h: YamlNode, segment: string, ghost at: Layout, ghost tree: Node, ghost p: Pos)
    returns (r: Result<nat, Error>)
    requires Shows(at, tree) && p in at && at[p] == h
    ensures HasPos(tree, p) && |At(tree, p).content| == |h.content|
    ensures r == ChildIndex(At(tree, p), segment)
  {
    assert ShownAt(at, tree, p);
    match h.kind
    case Mapping =>
      var next := MappingValue(h, segment, at, tree, p);
      return if next.None? then Err(KeyMissing) else Ok(next.value);
    case Sequence =>
      var index := Atoi(segment);
      if index.None? {
        return Err(IndexNotInteger);
      }
      if index.value < 0 || index.value >= |h.content| {
        return Err(IndexOutOfRange);
      }
      return Ok(index.value);
    case Scalar =>
      return Err(ParentNotContainer);
  }

  /** A position below another, or the error. */
  function Under(p: Pos, r: Result<Pos, Error>): Result<Pos, Error> {
    match r
    case Err(e) => Err(e)
    case Ok(q) => Ok(p + q)
  }

  lemma {:induction false} UnderRoot(r: Result<Pos, Error>)
    ensures Under([], r) == r
  {
    if r.Ok? {
      assert [] + r.value == r.value;
    }
  }

  lemma {:induction false} ResolveNext(n: Node, segs: seq<string>, p: Pos)
    requires segs != []
    ensures segs[0] == "" ==> Resolve(n, segs) == Err(InvalidKey)
    ensures segs[0] != "" && ChildIndex(n, segs[0]).Err? ==> Resolve(n, segs) == Err(ChildIndex(n, segs[0]).error)
    ensures segs[0] != "" && ChildIndex(n, segs[0]).Ok? ==>
      var i := ChildIndex(n, segs[0]).value;
      Under(p, Resolve(n, segs)) ==
      if |segs| == 1 then Ok(p + [i])
      else if n.content[i].kind == Scalar then Err(ParentNotContainer)
      else Under(p + [i], Resolve(n.content[i], segs[1..]))
  {
    if segs[0] != "" && ChildIndex(n, segs[0]).Ok? && |segs| > 1 {
      var i := ChildIndex(n, segs[0]).value;
      var r := Resolve(n.content[i], segs[1..]);
      if r.Ok? {
        assert p + ([i] + r.value) == p + [i] + r.value;
      }
    }
  }

  /** yamlValueNodeForPath: a loop over the segments that moves from node to node. */
  method ValueNodeForPath(root: YamlNode, path: string, ghost at: Layout, ghost tree: Node)
    returns (r: Result<YamlNode, Error>, ghost pos: Pos)
    requires Shows(at, tree) && [] in at && at[[]] == root
    ensures match Resolve(tree, Segments(path))
            case Err(e) => r == Err(e)
            case Ok(p) => pos == p && p in at && r == Ok(at[p])
  {
    var current := root;
    pos := [];
    var segments := Segments(path);
    ghost var rest := segments;
    ghost var node := tree;
    UnderRoot(Resolve(tree, segments));
    for index := 0 to |segments|
      invariant pos in at && at[pos] == current && HasPos(tree, pos) && node == At(tree, pos)
      invariant rest == segments[index..] && (index == |segments| ==> false)
      invariant Resolve(tree, segments) == Under(pos, Resolve(node, rest))
    {
      var segment := segments[index];
      ResolveNext(node, rest, pos);
      if segment == "" {
        return Err(InvalidKey), pos;
      }
      var next := ChildValue(current, segment, at, tree, pos);
      if next.Err? {
        return Err(next.error), pos;
      }
      ChildShown(at, tree, pos, next.value);
      pos := pos + [next.value];
      current := current.content[next.value];
      if index == |segments| - 1 {
        return Ok(current), pos;
      }
      if current.kind == Scalar {
        return Err(ParentNotContainer), pos;
      }
      node, rest := node.content[next.value], rest[1..];
    }
  }

  /** The children seen so far hold no placeholder. */
  ghost predicate NoneUpTo(n: Node, i: nat) {
    i <= |n.content| && forall k :: 0 <= k < i ==> !ContainsPlaceholder(n.content[k])
  }

  lemma {:induction false} ChildAnswers(n: Node, i: nat, inside: bool)
    requires n.kind != Scalar && i < |n.content| && NoneUpTo(n, i) && inside == ContainsPlaceholder(n.content[i])
    ensures inside ==> ContainsPlaceholder(n)
    ensures !inside ==> NoneUpTo(n, i + 1)
    ensures !inside && i + 1 == |n.content| ==> !ContainsPlaceholder(n)
  {
  }

  /** yamlNodeContainsEnvPlaceholder: a recursive walk. */
  method ContainsEnvPlaceholder(h: YamlNode, ghost at: Layout, ghost tree: Node, ghost p: Pos, ghost n: Node)
    returns (found: bool)
    requires Shows(at, tree) && p in at && at[p] == h && HasPos(tree, p) && At(tree, p) == n
    ensures found == ContainsPlaceholder(n)
    decreases n
  {
    assert ShownAt(at, tree, p);
    if h.kind == Scalar {
      return HasPlaceholder(h.value);
    }
    for i := 0 to |h.content|
      invariant NoneUpTo(n, i)
    {
      ChildShown(at, tree, p, i);
      var inside := ContainsEnvPlaceholder(h.content[i], at, tree, p + [i], n.content[i]);
      ChildAnswers(n, i, inside);
      if inside {
        return true;
      }
    }
    return false;
  }

  // ---------------------------------------------------------------- creating what is missing

  lemma {:induction false} PutSame(n: Node, p: Pos)
    requires HasPos(n, p)
    ensures Put(n, p, At(n, p)) == n
    decreases |p|
  {
    if p != [] {
      PutSame(n.content[p[0]], p[1..]);
    }
  }

  lemma {:induction false} PutInside(n: Node, p: Pos, m: Node, i: nat, child: Node)
    requires HasPos(n, p) && i < |m.content|
    ensures HasPos(Put(n, p, m), p + [i]) && At(Put(n, p, m), p + [i]) == m.content[i]
    ensures Put(Put(n, p, m), p + [i], child) == Put(n, p, m.(content := m.content[i := child]))
    decreases |p|
  {
    if p == [] {
      assert p + [i] == [i] && [i][1..] == [];
    } else {
      assert (p + [i])[1..] == p[1..] + [i];
      PutInside(n.content[p[0]], p[1..], m, i, child);
    }
  }

  /** A grown tree and the position in it, seen from the root. */
  function UnderPut(t: Node, p: Pos, r: Result<(Node, Pos), Error>): Result<(Node, Pos), Error>
    requires HasPos(t, p)
  {
    match r
    case Err(e) => Err(e)
    case Ok((sub, q)) => Ok((Put(t, p, sub), p + q))
  }

  lemma {:induction false} UnderPutRoot(t: Node, r: Result<(Node, Pos), Error>)
    ensures UnderPut(t, [], r) == r
  {
    if r.Ok? {
      assert [] + r.value.1 == r.value.1;
    }
  }

  /** One segment of the creating walk. */
  lemma {:induction false} EnsureNext(t: Node, p: Pos, n: Node, segs: seq<string>, kind: ScalarKind)
    requires segs != [] && segs[0] != "" && HasPos(t, p) && At(t, p) == n && n.kind == Mapping
    ensures var (n', i) := WithKey(n, segs[0], BlankFor(kind, |segs| == 1));
            var t' := Put(t, p, n');
            && HasPos(t', p + [i]) && At(t', p + [i]) == n'.content[i]
            && UnderPut(t, p, Ensure(n, segs, kind)) ==
               if |segs| == 1 then Ok((t', p + [i])) else UnderPut(t', p + [i], Ensure(n'.content[i], segs[1..], kind))
  {
    var (n', i) := WithKey(n, segs[0], BlankFor(kind, |segs| == 1));
    PutInside(t, p, n', i, n'.content[i]);
    if |segs| > 1 {
      var r := Ensure(n'.content[i], segs[1..], kind);
      if r.Ok? {
        PutInside(t, p, n', i, r.value.0);
        assert p + ([i] + r.value.1) == p + [i] + r.value.1;
      }
    }
  }

  /** A node in its place: the heap shows the tree, and the node stands for n at p. */
  ghost predicate Standing(at: Layout, tree: Node, p: Pos, h: YamlNode, n: Node)
    reads at.Values
  {
    Shows(at, tree) && p in at && at[p] == h && HasPos(tree, p) && At(tree, p) == n
  }

  /** One more child at the end of a node. */
  method AppendLeaf(h: YamlNode, leaf: YamlNode, ghost at: Layout, ghost tree: Node, ghost p: Pos, ghost n: Node,
                    ghost leafNode: Node, ghost last: Pos)
    returns (ghost at': Layout, ghost tree': Node)
    requires Standing(at, tree, p, h, n) && last == p + [|n.content|]
    requires leaf !in at.Values && SameAs(leaf, leafNode) && leafNode.content == []
    modifies h, leaf`place
    ensures HasPos(tree, p) && tree' == Put(tree, p, WithLeaf(n, leafNode))
    ensures Standing(at', tree', p, h, WithLeaf(n, leafNode))
    ensures last !in at && at' == at[last := leaf]
  {
    assert ShownAt(at, tree, p);
    assert h in at.Values;
    h.content := h.content + [leaf];
    leaf.place := p + [|n.content|];
    assert forall q :: q in at ==> at[q] in at.Values;
    KeepsRest(at, tree, p);
    LeafAdded(at, tree, p, leaf, leafNode);
    AtBelow(tree, p, [|n.content|]);
    AtPut(tree, p, WithLeaf(n, leafNode));
    at', tree' := at[last := leaf], Put(tree, p, WithLeaf(n, leafNode));
  }

  lemma {:induction false} KeepsRest(at: Layout, tree: Node, p: Pos)
    requires Covers(at, tree) && p in at && forall q :: q in at && q != p ==> HasPos(tree, q) && ShownAt(at, tree, q)
    ensures ShowsBut(at, tree, p)
  {
  }

  lemma {:induction false} PutTwice(n: Node, p: Pos, a: Node, b: Node)
    requires HasPos(n, p)
    ensures HasPos(Put(n, p, a), p) && Put(Put(n, p, a), p, b) == Put(n, p, b)
    decreases |p|
  {
    if p != [] {
      PutTwice(n.content[p[0]], p[1..], a, b);
    }
  }

  lemma {:induction false} ValuesPut(at: Layout, p: Pos, h: YamlNode)
    requires p !in at
    ensures at[p := h].Values <= at.Values + {h}
    ensures forall x :: x !in at.Values && x != h ==> x !in at[p := h].Values
    ensures forall q :: q in at ==> q in at[p := h] && at[p := h][q] == at[q]
  {
  }

  /** Two more children at the end of a node. */
  method AppendPair(h: YamlNode, first: YamlNode, second: YamlNode, ghost at: Layout, ghost tree: Node, ghost p: Pos,
                    ghost n: Node, ghost a: Node, ghost b: Node, ghost q: Pos, ghost last: Pos)
    returns (ghost at': Layout, ghost tree': Node)
    requires Standing(at, tree, p, h, n) && q == p + [|n.content|] && last == p + [|n.content| + 1]
    requires first !in at.Values && second !in at.Values && first != second
    requires SameAs(first, a) && SameAs(second, b) && a.content == [] && b.content == []
    modifies h, first`place, second`place
    ensures HasPos(tree, p) && tree' == Put(tree, p, WithLeaf(WithLeaf(n, a), b)) && Shows(at', tree')
    ensures q !in at && last !in at && q != last && at' == at[q := first][last := second]
  {
    assert h in at.Values;
    ghost var n1 := WithLeaf(n, a);
    ghost var at1, tree1 := AppendLeaf(h, first, at, tree, p, n, a, q);
    ValuesPut(at, q, first);
    SecondPlace(n, a, n1, p, q, last);
    at', tree' := AppendLeaf(h, second, at1, tree1, p, n1, b, last);
    PutTwice(tree, p, n1, WithLeaf(n1, b));
  }

  lemma {:induction false} SecondPlace(n: Node, a: Node, n1: Node, p: Pos, q: Pos, last: Pos)
    requires n1 == WithLeaf(n, a) && q == p + [|n.content|] && last == p + [|n.content| + 1]
    ensures last == p + [|n1.content|] && q != last
  {
    assert q[|p|] != last[|p|];
  }

  lemma {:induction false} PairPut(at: Layout, at': Layout, q: Pos, last: Pos, first: YamlNode, second: YamlNode)
    requires q !in at && last !in at && q != last && at' == at[q := first][last := second]
    ensures last in at' && at'[last] == second && at'.Values <= at.Values + {first, second}
    ensures forall r :: r in at ==> r in at' && at'[r] == at[r]
  {
  }

  /** A new node without children. */
  method MakeLeaf(n: Node) returns (h: YamlNode)
    requires n.content == []
    ensures fresh(h) && SameAs(h, n)
  {
    h := new YamlNode(n.kind, n.tag, n.value);
  }

  /** A key and a blank value at the end of a mapping. */
  method AddKey(h: YamlNode, key: string, blank: Node, ghost at: Layout, ghost tree: Node, ghost p: Pos, ghost n: Node)
    returns (next: YamlNode, ghost at': Layout, ghost tree': Node)
    requires Standing(at, tree, p, h, n) && blank.content == []
    modifies h
    ensures HasPos(tree, p) && tree' == Put(tree, p, WithLeaf(WithLeaf(n, KeyNode(key)), blank))
    ensures Shows(at', tree') && p + [|n.content| + 1] in at' && at'[p + [|n.content| + 1]] == next
    ensures forall q :: q in at ==> q in at' && at'[q] == at[q]
    ensures fresh(at'.Values - at.Values)
  {
    var keyNode := MakeLeaf(KeyNode(key));
    next := MakeLeaf(blank);
    ghost var q, last := p + [|n.content|], p + [|n.content| + 1];
    at', tree' := AppendPair(h, keyNode, next, at, tree, p, n, KeyNode(key), blank, q, last);
    PairPut(at, at', q, last, keyNode, next);
  }

  lemma {:induction false} WithKeyIs(n: Node, key: string, blank: Node)
    requires MapIndex(n.content, key, 0).None?
    ensures WithKey(n, key, blank) == (WithLeaf(WithLeaf(n, KeyNode(key)), blank), |n.content| + 1)
  {
    assert n.content + [KeyNode(key)] + [blank] == n.content + [KeyNode(key), blank];
  }

  /** One segment of the creating walk: the child under the key, made if it is missing. */
  method EnsureChild(h: YamlNode, key: string, kind: ScalarKind, last: bool, ghost at: Layout, ghost tree: Node,
                     ghost p: Pos, ghost n: Node)
    returns (next: YamlNode, ghost at': Layout, ghost tree': Node, ghost i: nat)
    requires Standing(at, tree, p, h, n)
    modifies h
    ensures WithKey(n, key, BlankFor(kind, last)).1 == i
    ensures HasPos(tree, p) && tree' == Put(tree, p, WithKey(n, key, BlankFor(kind, last)).0)
    ensures Shows(at', tree') && p + [i] in at' && at'[p + [i]] == next
    ensures forall q :: q in at ==> q in at' && at'[q] == at[q]
    ensures fresh(at'.Values - at.Values)
  {
    var found := MappingValue(h, key, at, tree, p);
    if found.Some? {
      ChildShown(at, tree, p, found.value);
      PutSame(tree, p);
      return h.content[found.value], at, tree, found.value;
    }
    WithKeyIs(n, key, BlankFor(kind, last));
    i := |n.content| + 1;
    next, at', tree' := AddKey(h, key, BlankFor(kind, last), at, tree, p, n);
  }

  /** A node that grew where it stands is a tree that grew. */
  lemma {:induction false} PutGrows(t: Node, p: Pos, n': Node)
    requires HasPos(t, p) && Grown(At(t, p), n')
    ensures Grown(t, Put(t, p, n'))
    decreases |p|
  {
    if p != [] {
      PutGrows(t.content[p[0]], p[1..], n');
      forall i | 0 <= i < |t.content| ensures Grown(t.content[i], Put(t, p, n').content[i]) {
        GrownRefl(t.content[i]);
      }
    }
  }

  lemma {:induction false} WithKeyIsGrown(n: Node, key: string, blank: Node)
    requires n.kind == Mapping
    ensures Grown(n, WithKey(n, key, blank).0)
  {
    forall i | 0 <= i < |n.content| ensures Grown(n.content[i], n.content[i]) {
      GrownRefl(n.content[i]);
    }
  }

  /** What is left to create, seen from the root. */
  ghost predicate Toward(goal: Result<(Node, Pos), Error>, t: Node, p: Pos, n: Node, segs: seq<string>,
                         kind: ScalarKind) {
    segs != [] && HasPos(t, p) && goal == UnderPut(t, p, Ensure(n, segs, kind))
  }

  lemma {:induction false} TowardNext(goal: Result<(Node, Pos), Error>, t: Node, p: Pos, n: Node, segs: seq<string>,
                                      kind: ScalarKind)
    requires Toward(goal, t, p, n, segs, kind) && At(t, p) == n
    ensures segs[0] == "" ==> goal == Err(InvalidKey)
    ensures segs[0] != "" && n.kind != Mapping ==> goal == Err(ParentNotMapping)
    ensures segs[0] != "" && n.kind == Mapping ==>
      var (n', i) := WithKey(n, segs[0], BlankFor(kind, |segs| == 1));
      var t' := Put(t, p, n');
      && HasPos(t', p + [i]) && At(t', p + [i]) == n'.content[i]
      && (|segs| == 1 ==> goal == Ok((t', p + [i])))
      && (|segs| > 1 ==> Toward(goal, t', p + [i], n'.content[i], segs[1..], kind))
  {
    if segs[0] != "" && n.kind == Mapping {
      EnsureNext(t, p, n, segs, kind);
    }
  }

  lemma {:induction false} StepGrows(t: Node, p: Pos, n: Node, key: string, kind: ScalarKind, last: bool)
    requires HasPos(t, p) && At(t, p) == n
    ensures n.kind == Mapping ==> Grown(t, Put(t, p, WithKey(n, key, BlankFor(kind, last)).0))
  {
    if n.kind == Mapping {
      WithKeyIsGrown(n, key, BlankFor(kind, last));
      PutGrows(t, p, WithKey(n, key, BlankFor(kind, last)).0);
    }
  }

  /** One turn of the creating loop. */
  method EnsureStep(current: YamlNode, segment: string, kind: ScalarKind, last: bool, ghost at: Layout,
                    ghost tree: Node, ghost p: Pos, ghost n: Node,
                    ghost rest: seq<string>, ghost goal: Result<(Node, Pos), Error>)
    returns (r: Result<YamlNode, Error>, ghost at': Layout, ghost tree': Node, ghost p': Pos, ghost n': Node)
    requires Standing(at, tree, p, current, n) && Toward(goal, tree, p, n, rest, kind)
    requires rest[0] == segment && (last <==> |rest| == 1)
    modifies current
    ensures Shows(at', tree') && Grown(tree, tree')
    ensures r.Err? ==> goal == Err(r.error)
    ensures r.Ok? ==> Standing(at', tree', p', r.value, n')
    ensures r.Ok? && last ==> goal == Ok((tree', p'))
    ensures r.Ok? && !last ==> Toward(goal, tree', p', n', rest[1..], kind)
    ensures forall q :: q in at ==> q in at' && at'[q] == at[q]
    ensures fresh(at'.Values - at.Values)
  {
    at', tree', p', n' := at, tree, p, n;
    GrownRefl(tree);
    StepGrows(tree, p, n, segment, kind, last);
    TowardNext(goal, tree, p, n, rest, kind);
    assert ShownAt(at, tree, p);
    if segment == "" {
      return Err(InvalidKey), at', tree', p', n';
    }
    if current.kind != Mapping {
      return Err(ParentNotMapping), at', tree', p', n';
    }
    ghost var i: nat;
    var next: YamlNode;
    next, at', tree', i := EnsureChild(current, segment, kind, last, at, tree, p, n);
    p' := p + [i];
    n' := At(tree', p');
    r := Ok(next);
  }

  /** The loop over the segments. */
  method EnsureSegments(root: YamlNode, segments: seq<string>, kind: ScalarKind, ghost at: Layout, ghost tree: Node,
                        ghost goal: Result<(Node, Pos), Error>)
    returns (r: Result<YamlNode, Error>, ghost at': Layout, ghost tree': Node, ghost pos: Pos)
    requires Standing(at, tree, [], root, tree) && segments != [] && Toward(goal, tree, [], tree, segments, kind)
    modifies at.Values
    ensures goal.Err? ==> r == Err(goal.error)
    ensures Shows(at', tree') && Grown(tree, tree')
    ensures goal.Ok? ==> goal.value == (tree', pos) && Shows(at', tree') && pos in at' && r == Ok(at'[pos])
    ensures [] in at' && at'[[]] == root && fresh(at'.Values - at.Values)
  {
    var current := root;
    at', tree', pos := at, tree, [];
    ghost var rest, node := segments, tree;
    GrownRefl(tree);
    for index := 0 to |segments|
      invariant Standing(at', tree', pos, current, node) && Grown(tree, tree')
      invariant [] in at' && at'[[]] == root && fresh(at'.Values - at.Values)
      invariant rest == segments[index..]
      invariant Toward(goal, tree', pos, node, rest, kind)
    {
      assert current in at'.Values;
      ghost var before := tree';
      r, at', tree', pos, node :=
        EnsureStep(current, segments[index], kind, index == |segments| - 1, at', tree', pos, node, rest, goal);
      GrownTrans(tree, before, tree');
      if r.Err? || index == |segments| - 1 {
        return;
      }
      current := r.value;
      rest := rest[1..];
    }
  }

  /** yamlEnsureValueNodeForPath: the walk down that appends the missing keys. */
  method EnsureValueNodeForPath(root: YamlNode, path: string, kind: ScalarKind, ghost at: Layout, ghost tree: Node)
    returns (r: Result<YamlNode, Error>, ghost at': Layout, ghost tree': Node, ghost pos: Pos)
    requires Shows(at, tree) && [] in at && at[[]] == root
    modifies at.Values
    ensures match Ensure(tree, Segments(path), kind)
            case Err(e) => r == Err(e)
            case Ok((t, p)) => tree' == t && pos == p && p in at' && r == Ok(at'[p])
    ensures Shows(at', tree') && Grown(tree, tree')
    ensures [] in at' && at'[[]] == root && fresh(at'.Values - at.Values)
  {
    ghost var goal := Ensure(tree, Segments(path), kind);
    UnderPutRoot(tree, goal);
    r, at', tree', pos := EnsureSegments(root, Segments(path), kind, at, tree, goal);
  }

  // ---------------------------------------------------------------- setting a value

  /** A new label on a node. */
  method Relabel(h: YamlNode, tag: string, value: string, ghost at: Layout, ghost tree: Node, ghost p: Pos,
                 ghost n: Node)
    returns (ghost tree': Node)
    requires Standing(at, tree, p, h, n)
    modifies h
    ensures HasPos(tree, p) && tree' == Put(tree, p, n.(tag := tag, value := value)) && Shows(at, tree')
  {
    assert ShownAt(at, tree, p);
    assert h in at.Values;
    h.tag, h.value := tag, value;
    assert forall q :: q in at ==> at[q] in at.Values;
    KeepsRest(at, tree, p);
    Relabelled(at, tree, p, n.(tag := tag, value := value));
    tree' := Put(tree, p, n.(tag := tag, value := value));
  }

  /** A node without its children, under a new tag. */
  method Bare(h: YamlNode, tag: string, ghost at: Layout, ghost tree: Node, ghost p: Pos, ghost n: Node)
    returns (ghost at': Layout, ghost tree': Node)
    requires Standing(at, tree, p, h, n)
    modifies h
    ensures HasPos(tree, p) && tree' == Put(tree, p, n.(tag := tag, content := []))
    ensures Standing(at', tree', p, h, n.(tag := tag, content := [])) && at' == Pruned(at, p) && at'.Values <= at.Values
  {
    assert ShownAt(at, tree, p);
    assert h in at.Values;
    h.tag := tag;
    h.content := [];
    assert forall q :: q in at ==> at[q] in at.Values;
    KeepsRest(at, tree, p);
    Bared(at, tree, p, n.(tag := tag, content := []));
    AtPut(tree, p, n.(tag := tag, content := []));
    at', tree' := Pruned(at, p), Put(tree, p, n.(tag := tag, content := []));
  }

  lemma {:induction false} StringsNext(values: seq<string>, i: nat)
    requires i < |values|
    ensures StringNodes(values[..i + 1]) == StringNodes(values[..i]) + [StringNode(values[i])]
  {
  }

  /** One string node at the end of a sequence. */
  method AppendString(h: YamlNode, value: string, ghost at: Layout, ghost tree: Node, ghost p: Pos, ghost n: Node)
    returns (ghost at': Layout, ghost tree': Node)
    requires Standing(at, tree, p, h, n)
    modifies h
    ensures HasPos(tree, p) && tree' == Put(tree, p, WithLeaf(n, StringNode(value)))
    ensures Standing(at', tree', p, h, WithLeaf(n, StringNode(value)))
    ensures forall q :: q in at ==> q in at' && at'[q] == at[q]
    ensures fresh(at'.Values - at.Values)
  {
    var leaf := MakeLeaf(StringNode(value));
    ghost var last := p + [|n.content|];
    at', tree' := AppendLeaf(h, leaf, at, tree, p, n, StringNode(value), last);
    ValuesPut(at, last, leaf);
  }

  /** The loop that fills a sequence with string nodes. */
  method FillStrings(h: YamlNode, values: seq<string>, ghost at: Layout, ghost tree: Node, ghost p: Pos, ghost n: Node)
    returns (ghost at': Layout, ghost tree': Node)
    requires Standing(at, tree, p, h, n) && n.content == []
    modifies h
    ensures HasPos(tree, p) && tree' == Put(tree, p, n.(content := StringNodes(values)))
    ensures Shows(at', tree')
    ensures forall q :: q in at ==> q in at' && at'[q] == at[q]
    ensures fresh(at'.Values - at.Values)
  {
    at', tree' := at, tree;
    ghost var node := n;
    PutSame(tree, p);
    for i := 0 to |values|
      invariant Standing(at', tree', p, h, node) && node == n.(content := StringNodes(values[..i]))
      invariant HasPos(tree, p) && tree' == Put(tree, p, node)
      invariant forall q :: q in at ==> q in at' && at'[q] == at[q]
      invariant fresh(at'.Values - at.Values)
    {
      StringsNext(values, i);
      ghost var before := at';
      at', tree' := AppendString(h, values[i], at', tree', p, node);
      PutTwice(tree, p, node, WithLeaf(node, StringNode(values[i])));
      node := WithLeaf(node, StringNode(values[i]));
      assert at'.Values - at.Values <= (at'.Values - before.Values) + (before.Values - at.Values);
    }
    assert values[..|values|] == values;
  }

  /** setYAMLScalarValue. */
  method SetScalarValue(h: YamlNode, u: Update, ghost at: Layout, ghost tree: Node, ghost p: Pos, ghost n: Node)
    returns (r: Result<(), Error>, ghost at': Layout, ghost tree': Node)
    requires Standing(at, tree, p, h, n)
    modifies h
    ensures SetScalar(n, u).Err? ==> r == Err(SetScalar(n, u).error) && at' == at && tree' == tree && Shows(at, tree)
    ensures SetScalar(n, u).Ok? ==>
            r == Ok(()) && HasPos(tree, p) && tree' == Put(tree, p, SetScalar(n, u).value) && Shows(at', tree')
    ensures forall q :: q in at && !(p < q) ==> q in at' && at'[q] == at[q]
    ensures fresh(at'.Values - at.Values)
  {
    at', tree' := at, tree;
    assert ShownAt(at, tree, p);
    if u.kind == StringSliceKind {
      if h.kind != Sequence {
        return Err(NotASequence(u.path)), at', tree';
      }
      at', tree' := SetStrings(h, u.values, at, tree, p, n);
      return Ok(()), at', tree';
    }
    if h.kind != Scalar {
      return Err(NotAScalar(u.path)), at', tree';
    }
    var tag :=
      match u.kind
      case StringKind => "!!str"
      case BoolKind => "!!bool"
      case IntKind => "!!int"
      case StringSliceKind => "";
    tree' := Relabel(h, tag, u.value, at, tree, p, n);
    return Ok(()), at', tree';
  }

  /** The list case: the old children go, the cleaned strings come. */
  method SetStrings(h: YamlNode, values: seq<string>, ghost at: Layout, ghost tree: Node, ghost p: Pos, ghost n: Node)
    returns (ghost at': Layout, ghost tree': Node)
    requires Standing(at, tree, p, h, n)
    modifies h
    ensures HasPos(tree, p) && tree' == Put(tree, p, n.(tag := "!!seq", content := StringNodes(Normalize(values))))
    ensures Shows(at', tree')
    ensures forall q :: q in at && !(p < q) ==> q in at' && at'[q] == at[q]
    ensures fresh(at'.Values - at.Values)
  {
    var normalized := NormalizePaths(values);
    ghost var bare := n.(tag := "!!seq", content := []);
    at', tree' := Bare(h, "!!seq", at, tree, p, n);
    ghost var bared := at';
    PutTwice(tree, p, bare, bare.(content := StringNodes(normalized)));
    at', tree' := FillStrings(h, normalized, at', tree', p, bare);
    assert at'.Values - at.Values <= at'.Values - bared.Values;
  }

  // ---------------------------------------------------------------- the batch

  /** The node that an update writes to: found, or made where the update allows it. */
  method LocateNode(root: YamlNode, u: Update, ghost at: Layout, ghost tree: Node)
    returns (r: Result<YamlNode, Error>, ghost at': Layout, ghost tree': Node, ghost pos: Pos)
    requires Shows(at, tree) && [] in at && at[[]] == root
    modifies at.Values
    ensures match Locate(tree, Segments(u.path), u)
            case Err(e) => r == Err(e)
            case Ok((t, p)) => tree' == t && pos == p && p in at' && r == Ok(at'[p])
    ensures Shows(at', tree') && Grown(tree, tree')
    ensures [] in at' && at'[[]] == root && fresh(at'.Values - at.Values)
  {
    at', tree' := at, tree;
    GrownRefl(tree);
    r, pos := ValueNodeForPath(root, u.path, at, tree);
    if r.Err? && u.createMissing {
      r, at', tree', pos := EnsureValueNodeForPath(root, u.path, u.kind, at, tree);
    }
  }

  /** The second half of an update: the placeholder guard, and the value. */
  method SetLocated(h: YamlNode, u: Update, overwrite: bool, ghost at: Layout, ghost tree: Node, ghost p: Pos,
                    ghost n: Node)
    returns (r: Result<(), Error>, ghost at': Layout, ghost tree': Node)
    requires Standing(at, tree, p, h, n)
    modifies h
    ensures ContainsPlaceholder(n) && !overwrite ==> r == Err(ManagedByPlaceholder(u.path))
    ensures !(ContainsPlaceholder(n) && !overwrite) ==>
              match SetScalar(n, u)
              case Err(e) => r == Err(e)
              case Ok(m) => r == Ok(()) && HasPos(tree, p) && tree' == Put(tree, p, m)
    ensures r.Err? ==> tree' == tree
    ensures Shows(at', tree') && fresh(at'.Values - at.Values)
    ensures forall q :: q in at && !(p < q) ==> q in at' && at'[q] == at[q]
  {
    at', tree' := at, tree;
    var managed := ContainsEnvPlaceholder(h, at, tree, p, n);
    if managed && !overwrite {
      return Err(ManagedByPlaceholder(u.path)), at', tree';
    }
    r, at', tree' := SetScalarValue(h, u, at, tree, p, n);
  }

  lemma {:induction false} FreshTwice(a: set<YamlNode>, b: set<YamlNode>, c: set<YamlNode>)
    ensures c - a <= (c - b) + (b - a)
  {
  }

  /** An update once its place is known. */
  lemma {:induction false} ApplyFrom(tree: Node, u: Update, overwrite: bool, grown: Node, p: Pos, n: Node)
    requires Locate(tree, Segments(u.path), u) == Ok((grown, p)) && HasPos(grown, p) && At(grown, p) == n
    ensures Apply(tree, u, overwrite) ==
            if ContainsPlaceholder(n) && !overwrite then Err(ManagedByPlaceholder(u.path))
            else match SetScalar(n, u) case Err(e) => Err(e) case Ok(m) => Ok((Put(grown, p, m), p))
  {
  }

  lemma {:induction false} ApplyStops(tree: Node, u: Update, overwrite: bool)
    requires Locate(tree, Segments(u.path), u).Err?
    ensures Apply(tree, u, overwrite) == Err(Locate(tree, Segments(u.path), u).error)
  {
  }

  /** One update of the batch. */
  method UpdateOne(root: YamlNode, u: Update, overwrite: bool, ghost at: Layout, ghost tree: Node)
    returns (r: Result<(), Error>, ghost at': Layout, ghost tree': Node)
    requires Shows(at, tree) && [] in at && at[[]] == root
    modifies at.Values
    ensures match Apply(tree, u, overwrite)
            case Err(e) => r == Err(e)
            case Ok((t, _)) => r == Ok(()) && tree' == t
    ensures Shows(at', tree') && (r.Err? ==> Grown(tree, tree'))
    ensures [] in at' && at'[[]] == root && fresh(at'.Values - at.Values)
  {
    var node: Result<YamlNode, Error>;
    ghost var pos: Pos;
    node, at', tree', pos := LocateNode(root, u, at, tree);
    if node.Err? {
      ApplyStops(tree, u, overwrite);
      return Err(node.error), at', tree';
    }
    ghost var located, grown := at', tree';
    ghost var n := At(grown, pos);
    assert node.value in located.Values;
    ApplyFrom(tree, u, overwrite, grown, pos, n);
    r, at', tree' := SetLocated(node.value, u, overwrite, located, grown, pos, n);
    FreshTwice(at.Values, located.Values, at'.Values);
  }

  /** The loop of UpdateYAMLScalars over a document in memory: what is left on the heap is what the batch makes of
      the tree. The first error stops the loop; the heap then shows what the updates before it made, with perhaps
      some keys appended that the failing update needed. */
  method UpdateYamlScalars(root: YamlNode, updates: seq<Update>, overwrite: bool, ghost at: Layout, ghost tree: Node)
    returns (r: Result<(), Error>, ghost at': Layout, ghost tree': Node, ghost done: nat)
    requires Shows(at, tree) && [] in at && at[[]] == root
    modifies at.Values
    ensures Shows(at', tree') && [] in at' && at'[[]] == root
    ensures match ApplyAll(tree, updates, overwrite)
            case Err(e) => r == Err(e)
            case Ok((t, _)) => r == Ok(()) && tree' == t
    ensures r.Err? ==> done < |updates| && ApplyAll(tree, updates[..done], overwrite).Ok?
    ensures r.Err? ==> Grown(ApplyAll(tree, updates[..done], overwrite).value.0, tree')
  {
    at', tree', done := at, tree, 0;
    ghost var ps: seq<Pos> := [];
    for i := 0 to |updates|
      invariant ApplyAll(tree, updates[..i], overwrite) == Ok((tree', ps))
      invariant Shows(at', tree') && [] in at' && at'[[]] == root && fresh(at'.Values - at.Values)
    {
      assert updates[..i + 1][..i] == updates[..i];
      ghost var before := at';
      ghost var applied := Apply(tree', updates[i], overwrite);
      done := i;
      r, at', tree' := UpdateOne(root, updates[i], overwrite, at', tree');
      if r.Err? {
        ApplyAllStops(tree, updates, overwrite, i + 1);
        return;
      }
      ps := ps + [applied.value.1];
      assert at'.Values - at.Values <= (at'.Values - before.Values) + (before.Values - at.Values);
    }
    assert updates[..|updates|] == updates;
    r := Ok(());
  }
}
