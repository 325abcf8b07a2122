/** What an update publishes is what a later reload reconstructs. */
module ConfigReload {
  import opened Text
  import opened PathLists
  import opened Placeholders
  import opened YamlTree
  import opened YamlUpdates
  import opened ConfigFile
  import opened ConfigModel

  // ---------------------------------------------------------------- substitution and lookup commute

  /** The settings path that the walk has reached below a base after a key. */
  function PathFrom(base: string, key: Key): string
    decreases |key|
  {
    if key == [] then base else PathFrom(SettingPath(base, key[0]), key[1..])
  }

  lemma AppendAssoc(a: string, b: string, c: string, d: string)
    ensures (a + "." + b) + c + d == a + "." + (b + c + d)
  {
  }

  /** A segment that trimming leaves alone. */
  predicate IsNeat(s: string) {
    s != "" && Trimmed(s)
  }

  lemma {:induction false} PathFromBase(base: string, key: Key)
    requires base != "" && key != [] && forall i :: 0 <= i < |key| ==> IsNeat(key[i])
    ensures PathFrom(base, key) == base + "." + Join(key, ".")
    decreases |key|
  {
    assert IsNeat(key[0]);
    TrimFixed(key[0]);
    var next := SettingPath(base, key[0]);
    assert next == base + "." + key[0];
    if |key| > 1 {
      var rest := Join(key[1..], ".");
      PathFromBase(next, key[1..]);
      AppendAssoc(base, key[0], ".", rest);
    }
  }

  /** The path under which the loader knows the setting of a key. */
  function SettingText(key: Key): string {
    PathText(Fold(key))
  }

  lemma {:induction false} LowerIsNeat(s: string)
    requires IsNeat(s)
    ensures IsNeat(Lower(s))
  {
    assert !IsSpace(LowerChar(s[0])) && !IsSpace(LowerChar(s[|s| - 1]));
  }

  lemma {:induction false} PathFromRoot(key: Key)
    requires Canonical(key)
    ensures PathFrom("", Fold(key)) == SettingText(key)
  {
    var folded := Fold(key);
    forall i | 0 <= i < |key| ensures IsNeat(folded[i]) {
      assert CanonicalSegment(key[i]);
      LowerIsNeat(key[i]);
    }
    TrimFixed(folded[0]);
    if |key| > 1 {
      PathFromBase(folded[0], folded[1..]);
    }
  }

  lemma {:induction false} LoadIndexSameKeys(content: seq<Node>, content': seq<Node>, segment: string, from: nat)
    requires |content| == |content'| && from % 2 == 0
    requires forall i :: 0 <= i < |content| && i % 2 == 0 ==> content[i] == content'[i]
    ensures LoadIndex(content', segment, from) == LoadIndex(content, segment, from)
    decreases |content| - from
  {
    if from + 1 < |content| && !IsFoldedKey(content[from], segment) {
      LoadIndexSameKeys(content, content', segment, from + 2);
    }
  }

  /** Substituting in the whole tree and then looking a key up is looking the key up and substituting there. */
  lemma {:induction false} ProcessLookup(n: Node, base: string, disabled: set<string>, env: Env, key: Key)
    ensures LoadLookup(Process(n, base, disabled, env), key) ==
            match LoadLookup(n, key)
            case None => None
            case Some(m) => Some(Process(m, PathFrom(base, Fold(key)), disabled, env))
    decreases |key|
  {
    if key != [] && n.kind == Mapping {
      var n' := Process(n, base, disabled, env);
      LoadIndexSameKeys(n.content, n'.content, key[0], 0);
      LookupStep(n, key);
      LookupStep(n', key);
      match LoadIndex(n.content, key[0], 0)
      case None =>
      case Some(i) =>
        var path := SettingPath(base, Lower(key[0]));
        assert Lower(n.content[i - 1].value) == Lower(key[0]);
        assert n'.content[i] == Process(n.content[i], path, disabled, env);
        ProcessLookup(n.content[i], path, disabled, env, key[1..]);
        FoldTail(key);
    }
  }

  /** A field of the file, as the loader decodes it. */
  lemma FileLeafAt(app: App, file: Node, env: Env, key: Key)
    requires WellFormedApp(app) && key in app.fields
    ensures FileLeaf(app, file, env, key) ==
            match LoadLookup(file, key)
            case None => Some(Zero(app.fields[key].ty))
            case Some(m) =>
              Decode(app, app.fields[key].ty, Process(m, SettingText(key), DisabledSet(FileDisabled(file)), env))
  {
    ProcessLookup(file, "", DisabledSet(FileDisabled(file)), env, key);
    PathFromRoot(key);
  }

  // ---------------------------------------------------------------- a written leaf is read back

  /** The form a value takes once written: string lists lose blanks, padding and repeats. */
  function Canon(v: Leaf): Leaf {
    if v.Strs? then Strs(Normalize(v.ss)) else v
  }

  /** A value that holds no placeholder. */
  ghost predicate PlainLeaf(v: Leaf) {
    match v
    case Str(s) => Plain(s)
    case Strs(ss) => forall i :: 0 <= i < |Normalize(ss)| ==> Plain(Normalize(ss)[i])
    case _ => true
  }

  /** The node that writing a value leaves in the file. */
  function LeafNode(v: Leaf): Node
    requires !v.NilPtr? && !v.Other?
  {
    Written(UpdateFor("", v).value)
  }

  lemma {:induction false} StringItemsOf(values: seq<string>)
    ensures StringItems(StringNodes(values)) == values
  {
    if values != [] {
      var n := |values| - 1;
      StringItemsOf(values[..n]);
      assert StringNodes(values)[..n] == StringNodes(values[..n]);
      assert values == values[..n] + [values[n]];
    }
  }

  /** Substitution leaves a plain written value alone, in every environment. */
  lemma ProcessLeafNode(v: Leaf, path: string, disabled: set<string>, env: Env)
    requires !v.NilPtr? && !v.Other? && PlainLeaf(v)
    ensures Process(LeafNode(v), path, disabled, env) == LeafNode(v)
  {
    var n := LeafNode(v);
    match v
    case Str(s) => SubstitutePlain(s, env, path !in disabled);
    case Bool(_) =>
    case Int(_) =>
    case Strs(ss) =>
      var n' := Process(n, path, disabled, env);
      forall i | 0 <= i < |n.content|
        ensures n'.content[i] == n.content[i]
      {
        assert n'.content[i] == Process(n.content[i], path, disabled, env);
        assert n.content[i] == StringNode(Normalize(ss)[i]);
        SubstitutePlain(Normalize(ss)[i], env, path !in disabled);
      }
      assert n'.content == n.content;
  }

  /** Decoding a written value gives the value, string lists in normal form. */
  lemma DecodeLeafNode(app: App, ty: LeafType, v: Leaf)
    requires HasType(v, ty) && !v.NilPtr? && !v.Other?
    ensures Decode(app, ty, LeafNode(v)) == Some(Canon(v))
  {
    match v
    case Str(_) =>
    case Bool(_) =>
    case Int(n) => ParseFormatted(n, ty.bits);
    case Strs(ss) => StringItemsOf(Normalize(ss));
  }

  /** A key under which a plain value was written reads back as that value, in every environment. */
  lemma WrittenLeafReadsBack(app: App, file: Node, env: Env, key: Key, v: Leaf)
    requires WellFormedApp(app) && key in app.fields && HasType(v, app.fields[key].ty)
    requires !v.NilPtr? && !v.Other? && PlainLeaf(v)
    requires LoadLookup(file, key) == Some(LeafNode(v))
    ensures FileLeaf(app, file, env, key) == Some(Canon(v))
  {
    FileLeafAt(app, file, env, key);
    ProcessLeafNode(v, SettingText(key), DisabledSet(FileDisabled(file)), env);
    DecodeLeafNode(app, app.fields[key].ty, v);
  }

  // ---------------------------------------------------------------- what persisting stores

  lemma {:induction false} PathUpdatesAre(app: App, access: Access, file: Node, env: Env, c: Config, mode: int,
                                          paths: seq<string>, us: seq<Update>)
    requires Typed(app, c) && PathUpdates(app, access, file, env, c, mode, paths) == Ok(us)
    ensures |us| == |paths|
    ensures forall i :: 0 <= i < |us| ==> PathUpdate(app, access, file, env, c, mode, paths[i]) == Ok(us[i])
  {
    if paths != [] {
      var n := |paths| - 1;
      var init := PathUpdates(app, access, file, env, c, mode, paths[..n]).value;
      PathUpdatesAre(app, access, file, env, c, mode, paths[..n], init);
    }
  }

  lemma PathUpdateIs(app: App, access: Access, file: Node, env: Env, c: Config, mode: int, path: string, u: Update)
    requires Typed(app, c) && PathUpdate(app, access, file, env, c, mode, path) == Ok(u)
    ensures Segments(path) in app.fields && u.path == path
    ensures !c[Segments(path)].NilPtr? && !c[Segments(path)].Other?
    ensures Written(u) == LeafNode(c[Segments(path)]) && (u.createMissing ==> path == DISABLED_PATH)
    ensures mode != FORCE_FILE ==> ActiveEnv(app, env, path) == None
  {
  }

  /** Some path of the list names the key. */
  ghost predicate Names(paths: seq<string>, key: Key) {
    exists i :: 0 <= i < |paths| && Segments(paths[i]) == key
  }

  /** The updates that persisting applies: one for each path, carrying the snapshot's value there. */
  lemma PersistApplies(app: App, access: Access, file: Node, env: Env, c: Config, mode: int, paths: seq<string>,
                       tree: Node)
    returns (us: seq<Update>, ps: seq<Pos>)
    requires Typed(app, c) && Persist(app, access, file, env, c, mode, paths) == Ok(tree)
    ensures ApplyAll(file, us, mode == FORCE_FILE) == Ok((tree, ps)) && |us| == |paths|
    ensures forall i :: 0 <= i < |us| ==> us[i].path == paths[i] && Segments(paths[i]) in app.fields
    ensures forall i :: 0 <= i < |us| ==>
              var v := c[Segments(paths[i])];
              !v.NilPtr? && !v.Other? && Written(us[i]) == LeafNode(v)
    ensures forall i :: 0 <= i < |us| && us[i].createMissing ==> us[i].path == DISABLED_PATH
    ensures mode != FORCE_FILE ==> forall i :: 0 <= i < |us| ==> ActiveEnv(app, env, paths[i]) == None
  {
    us := PathUpdates(app, access, file, env, c, mode, paths).value;
    ps := ApplyAll(file, us, mode == FORCE_FILE).value.1;
    PathUpdatesAre(app, access, file, env, c, mode, paths, us);
    forall i | 0 <= i < |us|
      ensures us[i].path == paths[i] && Segments(paths[i]) in app.fields
      ensures !c[Segments(paths[i])].NilPtr? && !c[Segments(paths[i])].Other?
      ensures Written(us[i]) == LeafNode(c[Segments(paths[i])]) && (us[i].createMissing ==> us[i].path == DISABLED_PATH)
      ensures mode != FORCE_FILE ==> ActiveEnv(app, env, paths[i]) == None
    {
      PathUpdateIs(app, access, file, env, c, mode, paths[i], us[i]);
    }
  }

  lemma DisabledPathSegments(app: App)
    requires WellFormedApp(app)
    ensures Segments(DISABLED_PATH) == DISABLED
  {
    assert DISABLED[1..] == ["disabled_paths"];
    assert PathText(DISABLED) == DISABLED_PATH;
    SegmentsOfPathText(DISABLED);
  }

  /** Persisting stores the snapshot's value under every named key and leaves every other key alone. */
  lemma PersistStores(app: App, access: Access, file: Node, env: Env, c: Config, mode: int, paths: seq<string>,
                      tree: Node, key: Key)
    requires WellFormedApp(app) && Typed(app, c) && WellFormed(file) && FitKeys(file, DISABLED) && key in app.fields
    requires Persist(app, access, file, env, c, mode, paths) == Ok(tree)
    ensures WellFormed(tree) && FitKeys(tree, DISABLED)
    ensures Names(paths, key) ==> !c[key].NilPtr? && !c[key].Other? && LoadLookup(tree, key) == Some(LeafNode(c[key]))
    ensures !Names(paths, key) ==> LoadLookup(tree, key) == LoadLookup(file, key)
  {
    var us, ps := PersistApplies(app, access, file, env, c, mode, paths, tree);
    StoresNamed(app, file, c, mode == FORCE_FILE, paths, us, tree, ps, key);
  }

  lemma StoresNamed(app: App, file: Node, c: Config, overwrite: bool, paths: seq<string>, us: seq<Update>, tree: Node,
                    ps: seq<Pos>, key: Key)
    requires WellFormedApp(app) && Typed(app, c) && WellFormed(file) && FitKeys(file, DISABLED) && key in app.fields
    requires ApplyAll(file, us, overwrite) == Ok((tree, ps)) && |us| == |paths|
    requires forall i :: 0 <= i < |us| ==> us[i].path == paths[i] && Segments(paths[i]) in app.fields
    requires forall i :: 0 <= i < |us| ==>
               var v := c[Segments(paths[i])];
               !v.NilPtr? && !v.Other? && Written(us[i]) == LeafNode(v)
    requires forall i :: 0 <= i < |us| && us[i].createMissing ==> us[i].path == DISABLED_PATH
    ensures WellFormed(tree) && FitKeys(tree, DISABLED)
    ensures Names(paths, key) ==> !c[key].NilPtr? && !c[key].Other? && LoadLookup(tree, key) == Some(LeafNode(c[key]))
    ensures !Names(paths, key) ==> LoadLookup(tree, key) == LoadLookup(file, key)
  {
    DisabledPathSegments(app);
    forall u | u in us
      ensures Canonical(Segments(u.path)) && (u.createMissing ==> Segments(u.path) == DISABLED)
      ensures Segments(u.path) == key || FoldApart(Segments(u.path), key)
    {
      var i :| 0 <= i < |us| && us[i] == u;
      assert Segments(paths[i]) in app.fields;
    }
    BatchStores(file, us, overwrite, tree, ps, key, DISABLED);
    var last := LastFor(us, key);
    if last.Some? {
      var i :| 0 <= i < |us| && us[i] == last.value;
      assert Segments(paths[i]) == key;
    } else {
      assert forall i :: 0 <= i < |us| ==> us[i] in us;
    }
  }
}
