/** Lists of configuration paths: trimmed, without blanks and without repeats. */
module PathLists {
  import opened Text

  /** Blank entries dropped, the rest trimmed, later repeats dropped. */
  function Normalize(values: seq<string>): seq<string> {
    if values == [] then []
    else
      var init := Normalize(values[..|values| - 1]);
      var last := TrimSpace(values[|values| - 1]);
      if last == "" || last in init then init else init + [last]
  }

  ghost predicate Distinct(values: seq<string>) {
    forall i, j :: 0 <= i < j < |values| ==> values[i] != values[j]
  }

  /** No blanks, no white space at either end, no repeats. */
  ghost predicate Clean(values: seq<string>) {
    && (forall i :: 0 <= i < |values| ==> values[i] != "" && Trimmed(values[i]))
    && Distinct(values)
  }

  lemma {:induction false} NormalizeClean(values: seq<string>)
    ensures Clean(Normalize(values))
  {
    if values != [] {
      NormalizeClean(values[..|values| - 1]);
    }
  }

  /** Exactly the trimmed entries that are not blank. */
  lemma {:induction false} NormalizeMember(values: seq<string>, x: string)
    ensures x in Normalize(values) <==> x != "" && exists i :: 0 <= i < |values| && TrimSpace(values[i]) == x
  {
    if values != [] {
      var init, last := values[..|values| - 1], values[|values| - 1];
      NormalizeMember(init, x);
      if x != "" && exists i :: 0 <= i < |values| && TrimSpace(values[i]) == x {
        var i :| 0 <= i < |values| && TrimSpace(values[i]) == x;
        if i < |values| - 1 {
          assert TrimSpace(init[i]) == x;
        }
      }
      if x in Normalize(init) {
        var i :| 0 <= i < |init| && TrimSpace(init[i]) == x;
        assert TrimSpace(values[i]) == x;
      }
    }
  }

  /** Normalizing changes nothing exactly when the list is clean already. */
  lemma {:induction false} NormalizeFixed(values: seq<string>)
    ensures Normalize(values) == values <==> Clean(values)
  {
    NormalizeClean(values);
    if Clean(values) {
      NormalizeOfClean(values);
    }
  }

  lemma {:induction false} NormalizeOfClean(values: seq<string>)
    requires Clean(values)
    ensures Normalize(values) == values
  {
    if values != [] {
      var init, last := values[..|values| - 1], values[|values| - 1];
      NormalizeOfClean(init);
      TrimFixed(last);
      assert values == init + [last];
    }
  }

  lemma NormalizeTwice(values: seq<string>)
    ensures Normalize(Normalize(values)) == Normalize(values)
  {
    NormalizeClean(values);
    NormalizeOfClean(Normalize(values));
  }

  /** Removing entries from a normal list leaves a normal list. */
  lemma NormalizeWithout(values: seq<string>, drop: set<string>)
    ensures Normalize(Without(Normalize(values), drop)) == Without(Normalize(values), drop)
  {
    NormalizeClean(values);
    WithoutClean(Normalize(values), drop);
    NormalizeOfClean(Without(Normalize(values), drop));
  }

  // ---------------------------------------------------------------- adding and removing

  /** The entries of the second list that are new, put after the first. */
  function Merge(base: seq<string>, extra: seq<string>): seq<string> {
    if extra == [] then base
    else
      var init := Merge(base, extra[..|extra| - 1]);
      var last := extra[|extra| - 1];
      if last in init then init else init + [last]
  }

  lemma {:induction false} MergeMember(base: seq<string>, extra: seq<string>, x: string)
    ensures x in Merge(base, extra) <==> x in base || x in extra
  {
    if extra != [] {
      MergeMember(base, extra[..|extra| - 1], x);
      assert extra == extra[..|extra| - 1] + [extra[|extra| - 1]];
    }
  }

  lemma {:induction false} MergeSnoc(base: seq<string>, extra: seq<string>, x: string)
    ensures Merge(base, extra + [x]) == if x in Merge(base, extra) then Merge(base, extra) else Merge(base, extra) + [x]
  {
    assert (extra + [x])[..|extra|] == extra;
  }

  /** Adding paths to a list keeps the list as a prefix, in normal form. */
  lemma {:induction false} NormalizeAppend(a: seq<string>, b: seq<string>)
    ensures Normalize(a + b) == Merge(Normalize(a), Normalize(b))
  {
    if b == [] {
      assert a + b == a;
    } else {
      var init, last := b[..|b| - 1], TrimSpace(b[|b| - 1]);
      assert (a + b)[..|a + b| - 1] == a + init;
      NormalizeAppend(a, init);
      MergeMember(Normalize(a), Normalize(init), last);
      MergeSnoc(Normalize(a), Normalize(init), last);
    }
  }

  /** The list without the entries of a set. */
  function Without(values: seq<string>, drop: set<string>): (r: seq<string>)
    ensures forall x :: x in r <==> x in values && x !in drop
  {
    if values == [] then []
    else
      var init := Without(values[..|values| - 1], drop);
      var last := values[|values| - 1];
      assert values == values[..|values| - 1] + [last];
      if last in drop then init else init + [last]
  }

  lemma {:induction false} WithoutClean(values: seq<string>, drop: set<string>)
    requires Clean(values)
    ensures Clean(Without(values, drop))
  {
    if values != [] {
      WithoutClean(values[..|values| - 1], drop);
      var last := values[|values| - 1];
      assert last !in values[..|values| - 1];
    }
  }

  lemma {:induction false} WithoutNone(values: seq<string>, drop: set<string>)
    requires forall x :: x in values ==> x !in drop
    ensures Without(values, drop) == values
  {
    if values != [] {
      WithoutNone(values[..|values| - 1], drop);
      assert values == values[..|values| - 1] + [values[|values| - 1]];
    }
  }

  /** Removing works entry by entry, in order. */
  lemma {:induction false} WithoutSnoc(a: seq<string>, x: string, drop: set<string>)
    ensures Without(a + [x], drop) == if x in drop then Without(a, drop) else Without(a, drop) + [x]
  {
    assert (a + [x])[..|a|] == a;
  }

  // ---------------------------------------------------------------- the loops

  /** normalizeConfigPaths and normalizeYAMLStringValues: one pass with a set of the entries seen. */
  method NormalizePaths(paths: seq<string>) returns (normalized: seq<string>)
    ensures normalized == Normalize(paths)
  {
    var seen: set<string> := {};
    normalized := [];
    for i := 0 to |paths|
      invariant normalized == Normalize(paths[..i])
      invariant forall x :: x in seen <==> x in normalized
    {
      assert paths[..i + 1][..i] == paths[..i];
      var path := TrimSpace(paths[i]);
      if path == "" {
        continue;
      }
      if path in seen {
        continue;
      }
      seen := seen + {path};
      normalized := normalized + [path];
    }
    assert paths[..|paths|] == paths;
  }

  /** addDisabledEnvOverridePaths: the list grown by the requested paths, and whether it grew. */
  method AddPaths(current: seq<string>, paths: seq<string>) returns (next: seq<string>, changed: bool)
    ensures next == Normalize(current + paths)
    ensures changed <==> next != Normalize(current)
    ensures changed <==> exists p :: p in Normalize(paths) && p !in Normalize(current)
  {
    var seen: set<string> := {};
    next := [];
    changed := false;
    var base := NormalizePaths(current);
    for i := 0 to |base|
      invariant next == base[..i]
      invariant forall x :: x in seen <==> x in next
    {
      seen := seen + {base[i]};
      next := next + [base[i]];
    }
    assert base[..|base|] == base;
    var extra := NormalizePaths(paths);
    for i := 0 to |extra|
      invariant next == Merge(base, extra[..i])
      invariant forall x :: x in seen <==> x in next
      invariant |base| <= |next| && (changed <==> |base| < |next|)
      invariant changed <==> exists p :: p in extra[..i] && p !in base
    {
      assert extra[..i + 1] == extra[..i] + [extra[i]];
      MergeSnoc(base, extra[..i], extra[i]);
      MergeMember(base, extra[..i], extra[i]);
      if extra[i] in seen {
        continue;
      }
      seen := seen + {extra[i]};
      next := next + [extra[i]];
      changed := true;
    }
    assert extra[..|extra|] == extra;
    NormalizeAppend(current, paths);
    MergePrefix(base, extra);
  }

  lemma {:induction false} MergePrefix(base: seq<string>, extra: seq<string>)
    ensures base <= Merge(base, extra)
  {
    if extra != [] {
      MergePrefix(base, extra[..|extra| - 1]);
    }
  }

  /** removeDisabledEnvOverridePaths: the list without the given paths, and whether one was there. An empty
      set leaves the list as it is, blanks and all. */
  method RemovePaths(current: seq<string>, drop: set<string>) returns (next: seq<string>, changed: bool)
    ensures next == if drop == {} then current else Without(Normalize(current), drop)
    ensures changed <==> exists p :: p in drop && p in Normalize(current)
  {
    if drop == {} {
      return current, false;
    }
    next := [];
    changed := false;
    var base := NormalizePaths(current);
    for i := 0 to |base|
      invariant next == Without(base[..i], drop)
      invariant changed <==> exists p :: p in drop && p in base[..i]
    {
      assert base[..i + 1] == base[..i] + [base[i]];
      assert base[..i + 1][..i] == base[..i];
      if base[i] in drop {
        changed := true;
        continue;
      }
      next := next + [base[i]];
    }
    assert base[..|base|] == base;
  }

  /** removeConfigPaths. */
  method KeepPaths(paths: seq<string>, drop: set<string>) returns (kept: seq<string>)
    ensures kept == Without(paths, drop)
  {
    if drop == {} {
      WithoutNone(paths, drop);
      return paths;
    }
    kept := [];
    for i := 0 to |paths|
      invariant kept == Without(paths[..i], drop)
    {
      assert paths[..i + 1][..i] == paths[..i];
      if paths[i] in drop {
        continue;
      }
      kept := kept + [paths[i]];
    }
    assert paths[..|paths|] == paths;
  }
}
