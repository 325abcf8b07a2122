/** Where a path leads, step by step: what one more segment does at a mapping, a sequence and a scalar, and what a write
    at an index changes. */
module YamlPaths {
  import opened Text
  import opened PathLists
  import opened Placeholders
  import opened YamlTree
  import opened YamlUpdates

  // ---------------------------------------------------------------- one segment

  /** The value slot at that place of a mapping stands right behind the first key that is a scalar with that text. */
  predicate IsFirstUnder(content: seq<Node>, key: string, i: nat) {
    && i < |content| && i % 2 == 1
    && content[i - 1].kind == Scalar && content[i - 1].value == key
    && forall j :: 0 <= j < i - 1 && j % 2 == 0 ==> !(content[j].kind == Scalar && content[j].value == key)
  }

  lemma {:induction false} MapIndexIs(content: seq<Node>, key: string, from: nat, i: nat)
    requires from % 2 == 0 && from < i && IsFirstUnder(content, key, i)
    ensures MapIndex(content, key, from) == Some(i)
    decreases i - from
  {
    if from < i - 1 {
      assert !IsKey(content[from], key);
      MapIndexIs(content, key, from + 2, i);
    }
  }

  lemma {:induction false} MapIndexNone(content: seq<Node>, key: string, from: nat)
    requires from % 2 == 0
    requires forall j :: 0 <= j < |content| - 1 && j % 2 == 0 ==>
               !(content[j].kind == Scalar && content[j].value == key)
    ensures MapIndex(content, key, from) == None
    decreases |content| - from
  {
    if from + 1 < |content| {
      MapIndexNone(content, key, from + 2);
    }
  }

  /** A path with one more segment goes on from where the path leads. */
  lemma {:induction false} ResolveMore(n: Node, segs: seq<string>, p: Pos, s: string)
    requires segs != [] && s != "" && Resolve(n, segs) == Ok(p)
    ensures Resolve(n, segs + [s]) ==
            match ChildIndex(At(n, p), s)
            case Err(e) => Err(e)
            case Ok(i) => Ok(p + [i])
    decreases |segs|
  {
    var i, more := p[0], segs + [s];
    assert more[0] == segs[0] && more[1..] == segs[1..] + [s];
    var child := n.content[i];
    if |segs| == 1 {
      assert segs[1..] + [s] == [s] && p == [i] && At(n, p) == child;
      OneSegment(child, s);
    } else {
      var q := Resolve(child, segs[1..]).value;
      assert p == [i] + q && p[1..] == q;
      ResolveMore(child, segs[1..], q, s);
      var r := Resolve(child, segs[1..] + [s]);
      if r.Ok? {
        assert [i] + r.value == p + [r.value[|q|]];
      }
    }
  }

  lemma {:induction false} OneSegment(n: Node, s: string)
    requires s != ""
    ensures Resolve(n, [s]) == match ChildIndex(n, s) case Err(e) => Err(e) case Ok(i) => Ok([i])
    ensures n.kind == Scalar ==> ChildIndex(n, s) == Err(ParentNotContainer)
  {
  }

  /** Where a path leads from the root: the root itself for no segment at all. */
  predicate LeadsTo(root: Node, segs: seq<string>, p: Pos) {
    if segs == [] then p == [] else Resolve(root, segs) == Ok(p)
  }

  lemma {:induction false} StepFrom(root: Node, segs: seq<string>, p: Pos, s: string)
    requires LeadsTo(root, segs, p) && s != ""
    ensures HasPos(root, p)
    ensures Resolve(root, segs + [s]) ==
            match ChildIndex(At(root, p), s)
            case Err(e) => Err(e)
            case Ok(i) => Ok(p + [i])
  {
    if segs == [] {
      assert segs + [s] == [s];
      OneSegment(root, s);
      var r := ChildIndex(root, s);
      if r.Ok? {
        assert [] + [r.value] == [r.value];
      }
    } else {
      ResolveMore(root, segs, p, s);
    }
  }

  /** In a sequence a segment is an index, counted from zero; it leads nowhere if it is no number or out of range. */
  lemma {:induction false} SequenceStep(root: Node, segs: seq<string>, p: Pos, s: string)
    requires LeadsTo(root, segs, p) && s != "" && HasPos(root, p) && At(root, p).kind == Sequence
    ensures Resolve(root, segs + [s]) ==
            match Atoi(s)
            case None => Err(IndexNotInteger)
            case Some(i) => if 0 <= i < |At(root, p).content| then Ok(p + [i]) else Err(IndexOutOfRange)
  {
    StepFrom(root, segs, p, s);
  }

  /** In a mapping a segment is a key, and the first one with that text counts. */
  lemma {:induction false} MappingStep(root: Node, segs: seq<string>, p: Pos, s: string, i: nat)
    requires LeadsTo(root, segs, p) && s != "" && HasPos(root, p) && At(root, p).kind == Mapping
    ensures IsFirstUnder(At(root, p).content, s, i) ==> Resolve(root, segs + [s]) == Ok(p + [i])
    ensures (forall j: nat :: !IsFirstUnder(At(root, p).content, s, j)) ==> Resolve(root, segs + [s]) == Err(KeyMissing)
  {
    StepFrom(root, segs, p, s);
    var content := At(root, p).content;
    if IsFirstUnder(content, s, i) {
      MapIndexIs(content, s, 0, i);
    }
    if forall j: nat :: !IsFirstUnder(content, s, j) {
      MissingIsNone(content, s);
    }
  }

  lemma {:induction false} MissingIsNone(content: seq<Node>, key: string)
    requires forall j: nat :: !IsFirstUnder(content, key, j)
    ensures MapIndex(content, key, 0) == None
  {
    if MapIndex(content, key, 0).Some? {
      FoundIsFirst(content, key, 0);
    }
  }

  lemma {:induction false} FoundIsFirst(content: seq<Node>, key: string, from: nat)
    requires from % 2 == 0 && MapIndex(content, key, from).Some?
    requires forall j :: 0 <= j < from && j < |content| && j % 2 == 0 ==>
             !(content[j].kind == Scalar && content[j].value == key)
    ensures IsFirstUnder(content, key, MapIndex(content, key, from).value)
    decreases |content| - from
  {
    if !IsKey(content[from], key) {
      FoundIsFirst(content, key, from + 2);
    }
  }

  /** A scalar has nothing below it. */
  lemma {:induction false} ScalarStep(root: Node, segs: seq<string>, p: Pos, s: string)
    requires LeadsTo(root, segs, p) && s != "" && HasPos(root, p) && At(root, p).kind == Scalar
    ensures Resolve(root, segs + [s]) == Err(ParentNotContainer)
  {
    StepFrom(root, segs, p, s);
  }

  // ---------------------------------------------------------------- a path with an index

  lemma {:induction false} SplitLast(a: string, b: string, sep: char)
    requires sep !in b
    ensures Split(a + [sep] + b, sep) == Split(a, sep) + [b]
    decreases |a|
  {
    var s := a + [sep] + b;
    if a == "" {
      assert s[1..] == b && s[0] == sep;
      SplitNone(b, sep);
    } else {
      assert s[1..] == a[1..] + [sep] + b && s[0] == a[0];
      SplitLast(a[1..], b, sep);
    }
  }

  /** A path with one more segment, as text. */
  lemma {:induction false} SegmentsMore(path: string, last: string)
    requires '.' !in last && Trimmed(last)
    ensures Segments(path + "." + last) == Segments(path) + [last]
  {
    SplitLast(path, last, '.');
    TrimFixed(last);
  }

  lemma {:induction false} IndexIsSegment(i: nat)
    requires FitsBits(i, 64)
    ensures FormatInt(i) != "" && '.' !in FormatInt(i) && Trimmed(FormatInt(i)) && Atoi(FormatInt(i)) == Some(i)
  {
    ParseFormatted(i, 64);
    var digits := Digits(i);
    assert IsDigit(digits[0]) && IsDigit(digits[|digits| - 1]);
    forall k | 0 <= k < |digits| ensures digits[k] != '.' {
      assert IsDigit(digits[k]);
    }
  }

  /** The path of an item of a sequence leads to that item. */
  lemma {:induction false} IndexLeadsTo(root: Node, path: string, p: Pos, i: nat)
    requires Resolve(root, Segments(path)) == Ok(p) && At(root, p).kind == Sequence
    requires i < |At(root, p).content| && FitsBits(i, 64)
    ensures Resolve(root, Segments(path + "." + FormatInt(i))) == Ok(p + [i])
  {
    IndexIsSegment(i);
    SegmentsMore(path, FormatInt(i));
    SequenceStep(root, Segments(path), p, FormatInt(i));
  }

  lemma {:induction false} FitsIsSet(n: Node, u: Update)
    requires WellFormed(n) && Written(u).kind == n.kind
    ensures SetScalar(n, u) == Ok(Written(u))
  {
  }

  lemma {:induction false} ItemIs(n: Node, p: Pos, i: nat, m: Node)
    requires HasPos(n, p) && i < |At(n, p).content|
    ensures HasPos(n, p + [i]) && At(n, p + [i]) == At(n, p).content[i]
    ensures HasPos(Put(n, p + [i], m), p)
    ensures At(Put(n, p + [i], m), p) == At(n, p).(content := At(n, p).content[i := m])
    decreases |p|
  {
    if p == [] {
      assert p + [i] == [i] && [i][1..] == [];
    } else {
      assert (p + [i])[0] == p[0] && (p + [i])[1..] == p[1..] + [i];
      ItemIs(n.content[p[0]], p[1..], i, m);
    }
  }

  /** A write at the path of an item replaces that item and leaves the other items of the sequence, in order. */
  lemma {:induction false} IndexedWrite(root: Node, path: string, p: Pos, i: nat, u: Update, overwrite: bool)
    requires WellFormed(root) && Resolve(root, Segments(path)) == Ok(p) && At(root, p).kind == Sequence
    requires i < |At(root, p).content| && FitsBits(i, 64) && u.path == path + "." + FormatInt(i)
    requires Written(u).kind == At(root, p).content[i].kind
    requires overwrite || !ContainsPlaceholder(At(root, p).content[i])
    ensures HasPos(root, p + [i]) && Apply(root, u, overwrite) == Ok((Put(root, p + [i], Written(u)), p + [i]))
    ensures HasPos(Put(root, p + [i], Written(u)), p)
    ensures At(Put(root, p + [i], Written(u)), p) ==
            At(root, p).(content := At(root, p).content[i := Written(u)])
  {
    IndexLeadsTo(root, path, p, i);
    ItemIs(root, p, i, Written(u));
    AtWellFormed(root, p + [i]);
    FitsIsSet(At(root, p + [i]), u);
  }
}
