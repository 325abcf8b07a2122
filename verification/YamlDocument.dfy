/** A document in memory: heap nodes made from a tree, and a tree made from heap nodes. */
module YamlDocument {
  import opened Text
  import opened YamlTree
  import opened YamlHeap

  // ---------------------------------------------------------------- a tree below a place

  /** The layout shows the tree, and every node knows its place below a base. */
  ghost predicate Planted(at: Layout, n: Node, base: Pos)
    reads at.Values
  {
    Covers(at, n) && forall p :: p in at ==> HasPos(n, p) && PlantedAt(at, n, base, p)
  }

  ghost predicate PlantedAt(at: Layout, n: Node, base: Pos, p: Pos)
    requires p in at && HasPos(n, p)
    reads at[p]
  {
    SameAs(at[p], At(n, p)) && Linked(at, p) && at[p].place == base + p
  }

  lemma {:induction false} PlantedShows(at: Layout, n: Node)
    requires Planted(at, n, [])
    ensures Shows(at, n)
  {
    forall p | p in at ensures HasPos(n, p) && ShownAt(at, n, p) {
      assert PlantedAt(at, n, [], p);
      assert [] + p == p;
    }
  }

  /** The node with its first children only. */
  function Cut(n: Node, i: nat): Node
    requires i <= |n.content|
  {
    n.(content := n.content[..i])
  }

  function Moved(q: Pos, i: nat): Pos {
    [i] + q
  }

  /** The layout with the layout of a child put in at its place. */
  ghost function Joined(at: Layout, child: Layout, i: nat): Layout {
    at + map q | q in (set p | p in child :: Moved(p, i)) && q != [] && q[1..] in child :: child[q[1..]]
  }

  lemma {:induction false} JoinedIs(at: Layout, child: Layout, i: nat, q: Pos)
    requires forall p :: p in at && p != [] ==> p[0] < i
    ensures q in Joined(at, child, i) <==> q in at || (q != [] && q[0] == i && q[1..] in child)
    ensures q != [] && q[0] == i && q[1..] in child ==> Joined(at, child, i)[q] == child[q[1..]]
    ensures q in at ==> Joined(at, child, i)[q] == at[q]
  {
    if q != [] && q[0] == i && q[1..] in child {
      assert Moved(q[1..], i) == q;
    }
    forall p | p in child ensures Moved(p, i)[1..] == p {
    }
  }

  lemma {:induction false} CutHasPos(n: Node, i: nat, q: Pos)
    requires i < |n.content|
    ensures HasPos(Cut(n, i + 1), q) <==> HasPos(Cut(n, i), q) || (q != [] && q[0] == i && HasPos(n.content[i], q[1..]))
    ensures HasPos(Cut(n, i), q) && q != [] ==> At(Cut(n, i + 1), q) == At(Cut(n, i), q)
    ensures q != [] && q[0] == i && HasPos(n.content[i], q[1..]) ==> At(Cut(n, i + 1), q) == At(n.content[i], q[1..])
  {
  }

  /** The root of the layout is as the node says, with one more child at the end. */
  ghost predicate RootExtended(at: Layout, n: Node, base: Pos, i: nat, child: YamlNode)
    requires [] in at
    reads at[[]]
  {
    var h := at[[]];
    && h.kind == n.kind && h.tag == n.tag && h.value == n.value && h.place == base
    && |h.content| == i + 1 && h.content[i] == child
    && forall j :: 0 <= j < i ==> [j] in at && at[[j]] == h.content[j]
  }

  ghost predicate PlantedBelow(at: Layout, n: Node, base: Pos)
    reads at.Values
  {
    Covers(at, n) && [] in at && forall p :: p in at && p != [] ==> HasPos(n, p) && PlantedAt(at, n, base, p)
  }

  lemma {:induction false} PlaceBelow(base: Pos, i: nat, q: Pos)
    requires q != [] && q[0] == i
    ensures base + [i] + q[1..] == base + q
  {
    assert q == [q[0]] + q[1..];
  }

  lemma {:induction false} JoinedRoot(at: Layout, cat: Layout, n: Node, base: Pos, i: nat)
    requires i < |n.content| && PlantedBelow(at, Cut(n, i), base) && Planted(cat, n.content[i], base + [i])
    requires RootExtended(at, n, base, i, cat[[]]) && [] in cat
    ensures [] in Joined(at, cat, i) && PlantedAt(Joined(at, cat, i), Cut(n, i + 1), base, [])
  {
    var both := Joined(at, cat, i);
    FirstsBelow(at, n, i);
    JoinedIs(at, cat, i, []);
    forall j | 0 <= j < |both[[]].content| ensures [] + [j] in both && both[[] + [j]] == both[[]].content[j] {
      assert [] + [j] == [j] && [j][1..] == [];
      JoinedIs(at, cat, i, [j]);
    }
  }

  lemma {:induction false} FirstsBelow(at: Layout, n: Node, i: nat)
    requires i <= |n.content| && Covers(at, Cut(n, i))
    ensures forall p :: p in at && p != [] ==> p[0] < i
  {
  }

  lemma {:induction false} JoinedOld(at: Layout, cat: Layout, n: Node, base: Pos, i: nat, q: Pos)
    requires i < |n.content| && PlantedBelow(at, Cut(n, i), base) && q in at && q != []
    ensures q in Joined(at, cat, i) && HasPos(Cut(n, i + 1), q) && PlantedAt(Joined(at, cat, i), Cut(n, i + 1), base, q)
  {
    FirstsBelow(at, n, i);
    JoinedIs(at, cat, i, q);
    CutHasPos(n, i, q);
    assert PlantedAt(at, Cut(n, i), base, q);
    forall j | 0 <= j < |at[q].content|
      ensures q + [j] in Joined(at, cat, i) && Joined(at, cat, i)[q + [j]] == at[q].content[j]
    {
      JoinedIs(at, cat, i, q + [j]);
    }
  }

  lemma {:induction false} JoinedNew(at: Layout, cat: Layout, n: Node, base: Pos, i: nat, q: Pos)
    requires i < |n.content| && Covers(at, Cut(n, i)) && Planted(cat, n.content[i], base + [i])
    requires q != [] && q[0] == i && q[1..] in cat
    ensures q in Joined(at, cat, i) && HasPos(Cut(n, i + 1), q) && PlantedAt(Joined(at, cat, i), Cut(n, i + 1), base, q)
  {
    FirstsBelow(at, n, i);
    JoinedIs(at, cat, i, q);
    CutHasPos(n, i, q);
    assert PlantedAt(cat, n.content[i], base + [i], q[1..]);
    PlaceBelow(base, i, q);
    forall j | 0 <= j < |cat[q[1..]].content|
      ensures q + [j] in Joined(at, cat, i) && Joined(at, cat, i)[q + [j]] == cat[q[1..]].content[j]
    {
      assert (q + [j])[1..] == q[1..] + [j];
      JoinedIs(at, cat, i, q + [j]);
    }
  }

  /** One more child: the layouts together show the node with it. */
  lemma {:induction false} JoinedPlanted(at: Layout, cat: Layout, n: Node, base: Pos, i: nat)
    requires i < |n.content| && PlantedBelow(at, Cut(n, i), base) && Planted(cat, n.content[i], base + [i])
    requires [] in cat && RootExtended(at, n, base, i, cat[[]])
    ensures Planted(Joined(at, cat, i), Cut(n, i + 1), base)
  {
    var both := Joined(at, cat, i);
    FirstsBelow(at, n, i);
    forall q ensures q in both <==> HasPos(Cut(n, i + 1), q) {
      JoinedIs(at, cat, i, q);
      CutHasPos(n, i, q);
    }
    forall q | q in both ensures HasPos(Cut(n, i + 1), q) && PlantedAt(both, Cut(n, i + 1), base, q) {
      JoinedIs(at, cat, i, q);
      if q == [] {
        JoinedRoot(at, cat, n, base, i);
      } else if q in at {
        JoinedOld(at, cat, n, base, i, q);
      } else {
        JoinedNew(at, cat, n, base, i, q);
      }
    }
  }

  lemma {:induction false} JoinedValues(at: Layout, cat: Layout, i: nat)
    requires forall p :: p in at && p != [] ==> p[0] < i
    ensures Joined(at, cat, i).Values <= at.Values + cat.Values
  {
    forall x | x in Joined(at, cat, i).Values ensures x in at.Values + cat.Values {
      var q :| q in Joined(at, cat, i) && Joined(at, cat, i)[q] == x;
      JoinedIs(at, cat, i, q);
    }
  }

  // ---------------------------------------------------------------- building and printing

  /** The root of a layout stands nowhere else, and has its children at the first positions. */
  lemma {:induction false} RootStandsAlone(at: Layout, n: Node, base: Pos, i: nat, h: YamlNode)
    requires i < |n.content| && Planted(at, Cut(n, i), base) && [] in at && at[[]] == h
    ensures SameAs(h, Cut(n, i)) && h.place == base && |h.content| == i
    ensures forall p :: p in at && p != [] ==> at[p] != h
    ensures forall j :: 0 <= j < i ==> [j] in at && at[[j]] == h.content[j]
  {
    assert PlantedAt(at, Cut(n, i), base, []);
    assert base + [] == base;
    forall p | p in at && p != [] ensures at[p] != h {
      assert PlantedAt(at, Cut(n, i), base, p);
      assert |base + p| > |base|;
    }
    forall j | 0 <= j < i ensures [j] in at && at[[j]] == h.content[j] {
      assert [] + [j] == [j];
    }
  }

  /** One more child on the heap. */
  method AddChild(h: YamlNode, child: YamlNode, ghost at: Layout, ghost cat: Layout, ghost n: Node, ghost base: Pos,
                  ghost i: nat)
    returns (ghost at': Layout)
    requires i < |n.content| && Planted(at, Cut(n, i), base) && [] in at && at[[]] == h
    requires Planted(cat, n.content[i], base + [i]) && [] in cat && cat[[]] == child && cat.Values !! at.Values
    modifies h
    ensures Planted(at', Cut(n, i + 1), base) && [] in at' && at'[[]] == h && at'.Values <= at.Values + cat.Values
  {
    RootStandsAlone(at, n, base, i, h);
    assert h in at.Values;
    assert forall p :: p in cat ==> cat[p] in cat.Values;
    h.content := h.content + [child];
    StillBelow(at, n, base, i);
    JoinedPlanted(at, cat, n, base, i);
    FirstsBelow(at, n, i);
    JoinedValues(at, cat, i);
    JoinedIs(at, cat, i, []);
    at' := Joined(at, cat, i);
  }

  lemma {:induction false} StillBelow(at: Layout, n: Node, base: Pos, i: nat)
    requires i <= |n.content| && Covers(at, Cut(n, i)) && [] in at
    requires forall p :: p in at && p != [] ==> HasPos(Cut(n, i), p) && PlantedAt(at, Cut(n, i), base, p)
    ensures PlantedBelow(at, Cut(n, i), base)
  {
  }

  /** A node without its children. */
  method BuildRoot(n: Node, ghost base: Pos) returns (h: YamlNode, ghost at: Layout)
    ensures Planted(at, Cut(n, 0), base) && [] in at && at[[]] == h && fresh(at.Values)
  {
    h := new YamlNode(n.kind, n.tag, n.value);
    h.place := base;
    at := map[[] := h];
    assert base + [] == base && Cut(n, 0).content == [];
    assert PlantedAt(at, Cut(n, 0), base, []);
  }

  /** The nodes of a tree, as parsing the file makes them. */
  method Build(n: Node, ghost base: Pos) returns (h: YamlNode, ghost at: Layout)
    ensures Planted(at, n, base) && [] in at && at[[]] == h && fresh(at.Values)
    decreases n
  {
    h, at := BuildRoot(n, base);
    for i := 0 to |n.content|
      invariant Planted(at, Cut(n, i), base) && [] in at && at[[]] == h && fresh(at.Values)
    {
      ghost var cat: Layout;
      var child: YamlNode;
      child, cat := Build(n.content[i], base + [i]);
      at := AddChild(h, child, at, cat, n, base, i);
    }
    assert Cut(n, |n.content|) == n;
  }

  /** The document that is read from a file. */
  method Parse(file: Node) returns (root: YamlNode, ghost at: Layout)
    ensures Shows(at, file) && [] in at && at[[]] == root && fresh(at.Values)
  {
    root, at := Build(file, []);
    PlantedShows(at, file);
  }

  /** The tree below a node, as printing the document writes it. */
  method Print(h: YamlNode, ghost at: Layout, ghost tree: Node, ghost p: Pos) returns (n: Node)
    requires Shows(at, tree) && p in at && at[p] == h && HasPos(tree, p)
    ensures n == At(tree, p)
    decreases At(tree, p)
  {
    assert ShownAt(at, tree, p);
    var content: seq<Node> := [];
    for i := 0 to |h.content|
      invariant content == At(tree, p).content[..i]
    {
      ChildShown(at, tree, p, i);
      ghost var child := At(tree, p).content[i];
      var printed := Print(h.content[i], at, tree, p + [i]);
      assert printed == child;
      content := content + [printed];
    }
    return Node(h.kind, h.tag, h.value, content);
  }

  /** Reading a file and printing it again gives the file. */
  method ParseThenPrint(file: Node) returns (n: Node)
    ensures n == file
  {
    var root: YamlNode;
    ghost var at: Layout;
    root, at := Parse(file);
    n := Print(root, at, file, []);
  }
}
