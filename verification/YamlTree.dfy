/** A YAML document as a tree of nodes, and the writer's batch of scalar updates as a function on trees.
    A mapping keeps its keys and values interleaved in `content`, key first. */
module YamlTree {
  import opened Text
  import opened PathLists
  import opened Placeholders

  datatype Kind = Scalar | Sequence | Mapping

  datatype Node = Node(kind: Kind, tag: string, value: string, content: seq<Node>)

  /** A position: the child index taken at each level, from the root. */
  type Pos = seq<nat>

  datatype Error =
    | InvalidKey
    | KeyMissing
    | ParentNotContainer
    | ParentNotMapping
    | IndexNotInteger
    | IndexOutOfRange
    | ManagedByPlaceholder(path: string)
    | NotAScalar(path: string)
    | NotASequence(path: string)

  datatype ScalarKind = StringKind | BoolKind | IntKind | StringSliceKind

  datatype Update = Update(kind: ScalarKind, path: string, value: string, values: seq<string>, createMissing: bool)

  /** What the YAML parser guarantees: scalars have no children, only scalars carry text, and mappings pair
      every key with a value. */
  predicate WellFormed(n: Node)
    decreases n
  {
    && (n.kind == Scalar ==> n.content == [])
    && (n.kind != Scalar ==> n.value == "")
    && (n.kind == Mapping ==> |n.content| % 2 == 0)
    && forall i :: 0 <= i < |n.content| ==> WellFormed(n.content[i])
  }

  // ---------------------------------------------------------------- positions

  predicate HasPos(n: Node, p: Pos)
    decreases |p|
  {
    p == [] || (p[0] < |n.content| && HasPos(n.content[p[0]], p[1..]))
  }

  function At(n: Node, p: Pos): Node
    requires HasPos(n, p)
    decreases |p|
  {
    if p == [] then n else At(n.content[p[0]], p[1..])
  }

  function Put(n: Node, p: Pos, m: Node): Node
    requires HasPos(n, p)
    decreases |p|
  {
    if p == [] then m
    else n.(content := n.content[p[0] := Put(n.content[p[0]], p[1..], m)])
  }

  /** One position lies at or below the other. */
  predicate Comparable(p: Pos, q: Pos) {
    p <= q || q <= p
  }

  predicate SameLabel(a: Node, b: Node) {
    a.kind == b.kind && a.tag == b.tag && a.value == b.value
  }

  lemma PrefixTails(p: Pos, q: Pos)
    requires p != [] && q != [] && p[0] == q[0]
    ensures p <= q <==> p[1..] <= q[1..]
  {
    assert p == [p[0]] + p[1..] && q == [q[0]] + q[1..];
  }

  lemma {:induction false} AtPut(n: Node, p: Pos, m: Node)
    requires HasPos(n, p)
    ensures HasPos(Put(n, p, m), p) && At(Put(n, p, m), p) == m
    decreases |p|
  {
    if p != [] {
      AtPut(n.content[p[0]], p[1..], m);
    }
  }

  /** A write at p leaves the label of every node that is not at or below p. */
  lemma {:induction false} PutFrame(n: Node, p: Pos, m: Node, q: Pos)
    requires HasPos(n, p) && HasPos(n, q) && !(p <= q)
    ensures HasPos(Put(n, p, m), q)
    ensures SameLabel(At(Put(n, p, m), q), At(n, q))
    ensures |At(Put(n, p, m), q).content| == |At(n, q).content|
    ensures !(q <= p) ==> At(Put(n, p, m), q) == At(n, q)
    decreases |p|
  {
    if q != [] && p[0] == q[0] {
      PrefixTails(p, q);
      PrefixTails(q, p);
      PutFrame(n.content[p[0]], p[1..], m, q[1..]);
    }
  }

  /** Below a position: what hangs under p in the tree is what hangs under At(n, p). */
  lemma {:induction false} AtBelow(n: Node, p: Pos, r: Pos)
    requires HasPos(n, p)
    ensures HasPos(n, p + r) <==> HasPos(At(n, p), r)
    ensures HasPos(n, p + r) ==> At(n, p + r) == At(At(n, p), r)
    decreases |p|
  {
    if p == [] {
      assert p + r == r;
    } else {
      assert (p + r)[1..] == p[1..] + r;
      AtBelow(n.content[p[0]], p[1..], r);
    }
  }

  lemma {:induction false} AtWellFormed(n: Node, p: Pos)
    requires WellFormed(n) && HasPos(n, p)
    ensures WellFormed(At(n, p))
    decreases |p|
  {
    if p != [] {
      AtWellFormed(n.content[p[0]], p[1..]);
    }
  }

  lemma {:induction false} PutWellFormed(n: Node, p: Pos, m: Node)
    requires WellFormed(n) && HasPos(n, p) && WellFormed(m)
    ensures WellFormed(Put(n, p, m))
    decreases |p|
  {
    if p != [] {
      PutWellFormed(n.content[p[0]], p[1..], m);
      assert HasPos(n, p) && n.kind != Scalar;
    }
  }

  // ---------------------------------------------------------------- lookup by path

  /** A dotted path as its trimmed segments. */
  function Segments(path: string): (segs: seq<string>)
    ensures |segs| >= 1
  {
    var parts := Split(path, '.');
    seq(|parts|, i requires 0 <= i < |parts| => TrimSpace(parts[i]))
  }

  predicate IsKey(n: Node, key: string) {
    n.kind == Scalar && n.value == key
  }

  /** The index of the value that a mapping holds under a key, the first one if the key repeats. */
  function MapIndex(content: seq<Node>, key: string, from: nat): (i: Option<nat>)
    ensures i.Some? ==> from <= i.value - 1 && i.value < |content| && IsKey(content[i.value - 1], key)
    ensures i.Some? ==> (i.value - 1 - from) % 2 == 0
    decreases |content| - from
  {
    if from + 1 >= |content| then None
    else if IsKey(content[from], key) then Some(from + 1)
    else MapIndex(content, key, from + 2)
  }

  /** The child that a segment names: by key in a mapping, by index in a sequence. */
  function ChildIndex(n: Node, segment: string): (r: Result<nat, Error>)
    ensures r.Ok? ==> r.value < |n.content|
  {
    match n.kind
    case Mapping =>
      (match MapIndex(n.content, segment, 0)
       case Some(i) => Ok(i)
       case None => Err(KeyMissing))
    case Sequence =>
      (match Atoi(segment)
       case None => Err(IndexNotInteger)
       case Some(i) => if 0 <= i < |n.content| then Ok(i) else Err(IndexOutOfRange))
    case Scalar => Err(ParentNotContainer)
  }

  function Resolve(n: Node, segs: seq<string>): (r: Result<Pos, Error>)
    requires segs != []
    ensures r.Ok? ==> HasPos(n, r.value) && |r.value| == |segs|
    decreases |segs|
  {
    if segs[0] == "" then Err(InvalidKey)
    else
      match ChildIndex(n, segs[0])
      case Err(e) => Err(e)
      case Ok(i) =>
        if |segs| == 1 then Ok([i])
        else if n.content[i].kind == Scalar then Err(ParentNotContainer)
        else
          match Resolve(n.content[i], segs[1..])
          case Err(e) => Err(e)
          case Ok(p) => Ok([i] + p)
  }

  // ---------------------------------------------------------------- creating a missing path

  function EmptyNodeFor(kind: ScalarKind): Node {
    if kind == StringSliceKind then Node(Sequence, "!!seq", "", []) else Node(Scalar, "!!str", "", [])
  }

  function KeyNode(key: string): Node {
    Node(Scalar, "!!str", key, [])
  }

  /** The mapping with the key present, appended with the given first value if it was missing, and the
      index of the value under that key. */
  function WithKey(n: Node, key: string, blank: Node): (r: (Node, nat))
    ensures r.1 < |r.0.content|
  {
    match MapIndex(n.content, key, 0)
    case Some(i) => (n, i)
    case None => (n.(content := n.content + [KeyNode(key), blank]), |n.content| + 1)
  }

  function BlankFor(kind: ScalarKind, last: bool): Node {
    if last then EmptyNodeFor(kind) else Node(Mapping, "!!map", "", [])
  }

  function Ensure(n: Node, segs: seq<string>, kind: ScalarKind): (r: Result<(Node, Pos), Error>)
    requires segs != []
    ensures r.Ok? ==> HasPos(r.value.0, r.value.1) && r.value.1 != []
    decreases |segs|
  {
    if segs[0] == "" then Err(InvalidKey)
    else if n.kind != Mapping then Err(ParentNotMapping)
    else
      var (n', i) := WithKey(n, segs[0], BlankFor(kind, |segs| == 1));
      if |segs| == 1 then Ok((n', [i]))
      else
        match Ensure(n'.content[i], segs[1..], kind)
        case Err(e) => Err(e)
        case Ok((child, p)) => Ok((n'.(content := n'.content[i := child]), [i] + p))
  }

  // ---------------------------------------------------------------- one update

  predicate ContainsPlaceholder(n: Node)
    decreases n
  {
    if n.kind == Scalar then HasPlaceholder(n.value)
    else exists i :: 0 <= i < |n.content| && ContainsPlaceholder(n.content[i])
  }

  function StringNode(s: string): Node {
    Node(Scalar, "!!str", s, [])
  }

  function StringNodes(values: seq<string>): (r: seq<Node>)
    ensures |r| == |values| && forall i :: 0 <= i < |values| ==> r[i] == StringNode(values[i])
  {
    seq(|values|, i requires 0 <= i < |values| => StringNode(values[i]))
  }

  function SetScalar(n: Node, u: Update): Result<Node, Error> {
    match u.kind
    case StringKind => if n.kind != Scalar then Err(NotAScalar(u.path)) else Ok(n.(tag := "!!str", value := u.value))
    case BoolKind => if n.kind != Scalar then Err(NotAScalar(u.path)) else Ok(n.(tag := "!!bool", value := u.value))
    case IntKind => if n.kind != Scalar then Err(NotAScalar(u.path)) else Ok(n.(tag := "!!int", value := u.value))
    case StringSliceKind =>
      if n.kind != Sequence then Err(NotASequence(u.path))
      else Ok(n.(tag := "!!seq", content := StringNodes(Normalize(u.values))))
  }

  /** The position an update writes to, in the tree grown to hold it. */
  function Locate(root: Node, key: seq<string>, u: Update): (r: Result<(Node, Pos), Error>)
    requires key != []
    ensures r.Ok? ==> HasPos(r.value.0, r.value.1) && r.value.1 != []
  {
    match Resolve(root, key)
    case Ok(p) => Ok((root, p))
    case Err(e) => if u.createMissing then Ensure(root, key, u.kind) else Err(e)
  }

  /** One update, at the node that a key leads to. */
  function ApplyAt(root: Node, key: seq<string>, u: Update, overwrite: bool): (r: Result<(Node, Pos), Error>)
    requires key != []
    ensures r.Ok? ==> r.value.1 != []
  {
    match Locate(root, key, u)
    case Err(e) => Err(e)
    case Ok((tree, p)) =>
      if ContainsPlaceholder(At(tree, p)) && !overwrite then Err(ManagedByPlaceholder(u.path))
      else
        match SetScalar(At(tree, p), u)
        case Err(e) => Err(e)
        case Ok(m) => Ok((Put(tree, p, m), p))
  }

  function Apply(root: Node, u: Update, overwrite: bool): (r: Result<(Node, Pos), Error>)
    ensures r.Ok? ==> r.value.1 != []
  {
    ApplyAt(root, Segments(u.path), u, overwrite)
  }

  /** The whole batch: the final tree and, for each update, the position it wrote to. */
  function ApplyAll(root: Node, us: seq<Update>, overwrite: bool): (r: Result<(Node, seq<Pos>), Error>)
    ensures r.Ok? ==> |r.value.1| == |us|
  {
    if us == [] then Ok((root, []))
    else
      match ApplyAll(root, us[..|us| - 1], overwrite)
      case Err(e) => Err(e)
      case Ok((tree, ps)) =>
        match Apply(tree, us[|us| - 1], overwrite)
        case Err(e) => Err(e)
        case Ok((tree', p)) => Ok((tree', ps + [p]))
  }

  /** An error stops the batch. */
  lemma {:induction false} ApplyAllStops(root: Node, us: seq<Update>, overwrite: bool, i: nat)
    requires i <= |us| && ApplyAll(root, us[..i], overwrite).Err?
    ensures ApplyAll(root, us, overwrite) == ApplyAll(root, us[..i], overwrite)
    decreases |us|
  {
    if i == |us| {
      assert us[..i] == us;
    } else {
      var init := us[..|us| - 1];
      assert init[..i] == us[..i];
      ApplyAllStops(root, init, overwrite, i);
    }
  }
}
