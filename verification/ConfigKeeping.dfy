/** What an update leaves alone: the fields that it does not ask for, and a file that can be read and decoded. */
module ConfigKeeping {
  import opened Text
  import opened PathLists
  import opened Placeholders
  import opened YamlTree
  import opened YamlUpdates
  import opened ConfigFile
  import opened ConfigModel
  import opened ConfigReload
  import opened ConfigLaws
  import opened ConfigRoundTrip
  import opened ConfigIsolation

  // ---------------------------------------------------------------- which entries of the list a setting sees

  /** A path at or below another, as texts. */
  predicate Below(path: string, x: string) {
    x == path || path + "." <= x
  }

  lemma {:induction false} BelowChild(path: string, k: string, x: string)
    requires path != "" && Below(SettingPath(path, k), x)
    ensures Below(path, x)
  {
    var child := SettingPath(path, k);
    if child != path {
      assert child == path + "." + TrimSpace(k);
      assert path + "." <= child;
      assert child <= x;
    }
  }

  /** Two lists agree as far as a setting can see. */
  ghost predicate AgreeBelow(path: string, a: set<string>, b: set<string>) {
    forall x :: Below(path, x) ==> (x in a <==> x in b)
  }

  lemma {:induction false} AgreeChild(path: string, k: string, a: set<string>, b: set<string>)
    requires path != "" && AgreeBelow(path, a, b)
    ensures AgreeBelow(SettingPath(path, k), a, b) && SettingPath(path, k) != ""
  {
    forall x | Below(SettingPath(path, k), x) ensures x in a <==> x in b {
      BelowChild(path, k, x);
    }
  }

  /** Substitution in a setting consults the list at and below the setting's path only. */
  lemma {:induction false} ProcessSees(n: Node, path: string, a: set<string>, b: set<string>, env: Env)
    requires path != "" && AgreeBelow(path, a, b)
    ensures Process(n, path, a, env) == Process(n, path, b, env)
    decreases n
  {
    match n.kind
    case Scalar =>
      assert Below(path, path);
    case Sequence =>
      forall i | 0 <= i < |n.content| ensures Process(n.content[i], path, a, env) ==
        Process(n.content[i], path, b, env) {
        ProcessSees(n.content[i], path, a, b, env);
      }
      assert Process(n, path, a, env).content == Process(n, path, b, env).content;
    case Mapping =>
      forall i | 0 <= i < |n.content| && i % 2 == 1
        ensures var child := SettingPath(path, Lower(n.content[i - 1].value));
                Process(n.content[i], child, a, env) == Process(n.content[i], child, b, env)
      {
        AgreeChild(path, Lower(n.content[i - 1].value), a, b);
        ProcessSees(n.content[i], SettingPath(path, Lower(n.content[i - 1].value)), a, b, env);
      }
      assert Process(n, path, a, env).content == Process(n, path, b, env).content;
  }

  // ---------------------------------------------------------------- paths of other fields

  lemma {:induction false} ConsGroup(x: string, ys: seq<string>, zs: seq<string>)
    ensures [x] + (ys + zs) == ([x] + ys) + zs
  {
  }

  lemma {:induction false} JoinMore(first: string, others: Key, rest: string)
    requires others != []
    ensures Join([first] + others, ".") + "." + rest == first + ['.'] + (Join(others, ".") + "." + rest)
  {
    assert ([first] + others)[1..] == others;
  }

  /** A text that goes on after the text of a key begins with the segments of the key. */
  lemma {:induction false} SplitMore(key: Key, rest: string)
    requires key != [] && forall i :: 0 <= i < |key| ==> '.' !in key[i]
    ensures Split(Join(key, ".") + "." + rest, '.') == key + Split(rest, '.')
    decreases |key|
  {
    var first, others := key[0], key[1..];
    if |key| == 1 {
      SplitCons(first, rest, '.');
    } else {
      SplitMoreThanOne(key, first, others, rest);
    }
  }

  lemma {:induction false} SplitMoreThanOne(key: Key, first: string, others: Key, rest: string)
    requires key == [first] + others && others != [] && forall i :: 0 <= i < |key| ==> '.' !in key[i]
    ensures Split(Join(key, ".") + "." + rest, '.') == key + Split(rest, '.')
    decreases |key|, 0
  {
    assert '.' !in key[0];
    forall i | 0 <= i < |others| ensures '.' !in others[i] {
      assert others[i] == key[i + 1];
    }
    SplitMore(others, rest);
    SplitCons(first, Join(others, ".") + "." + rest, '.');
    JoinMore(first, others, rest);
    ConsGroup(first, others, Split(rest, '.'));
  }

  lemma {:induction false} FoldedSegment(key: Key, i: nat)
    requires Canonical(key) && i < |key|
    ensures '.' !in Fold(key)[i] && TrimSpace(Fold(key)[i]) == Fold(key)[i]
  {
    assert CanonicalSegment(key[i]);
    LowerIsNeat(key[i]);
    TrimFixed(Fold(key)[i]);
  }

  lemma {:induction false} SegmentsBelow(key: Key, x: string)
    requires Canonical(key) && Below(SettingText(key), x)
    ensures |key| <= |Segments(x)| && forall i :: 0 <= i < |key| ==> Segments(x)[i] == Fold(key)[i]
  {
    var folded := Fold(key);
    forall i | 0 <= i < |key| ensures '.' !in folded[i] && TrimSpace(folded[i]) == folded[i] {
      FoldedSegment(key, i);
    }
    if x == SettingText(key) {
      assert forall p :: p in folded ==> '.' !in p;
      SplitJoin(folded, '.');
    } else {
      var rest := x[|SettingText(key)| + 1..];
      assert x == Join(folded, ".") + "." + rest;
      SplitMore(folded, rest);
    }
  }

  lemma {:induction false} FoldTwice(key: Key)
    ensures Fold(Fold(key)) == Fold(key)
  {
    forall i | 0 <= i < |key| ensures Lower(Lower(key[i])) == Lower(key[i]) {
      assert Lower(Lower(key[i])) == Lower(key[i]);
    }
  }

  lemma {:induction false} BelowIsLonger(key: Key, x: string)
    requires Canonical(key) && Below(SettingText(key), x)
    ensures Fold(key) <= Fold(Segments(x))
  {
    SegmentsBelow(key, x);
    FoldTwice(key);
    var other := Segments(x);
    forall i | 0 <= i < |key| ensures Fold(key)[i] == Fold(other)[i] {
      assert Fold(Fold(key))[i] == Lower(Fold(key)[i]);
    }
  }

  /** A path that names a field is not at or below the setting of a field that is told apart from it. */
  lemma {:induction false} OtherPathIsElsewhere(key: Key, x: string)
    requires Canonical(key) && FoldApart(key, Segments(x))
    ensures !Below(SettingText(key), x)
  {
    if Below(SettingText(key), x) {
      BelowIsLonger(key, x);
    }
  }

  // ---------------------------------------------------------------- the list of the file after an update

  /** Every path that an update asked for names a field. */
  lemma {:induction false} RequestedIsField(app: App, access: Access, file: Node, env: Env, edited: Config,
                                            opts: Options, outcome: Outcome, x: string)
    requires Updated(app, access, file, env, edited, opts, outcome) && x in opts.paths
    ensures Segments(x) in app.fields
  {
    RequestedPathHandled(app, access, file, env, edited, opts, outcome, x);
  }

  /** The file's list, as the set that the loader consults. */
  function Listed(file: Node): set<string> {
    DisabledSet(FileDisabled(file))
  }

  lemma {:induction false} ListedIs(app: App, c: Config, file: Node, x: string)
    requires WellFormedApp(app) && Typed(app, c) && Synced(app, c, file)
    ensures x in Listed(file) <==> x in Disabled(app, c)
  {
  }

  /** An update changes the list of the file at paths that it asks for, and nowhere else: reject changes nothing,
      force-file adds, runtime-env-only removes. */
  lemma {:induction false} ListChanges(app: App, access: Access, file: Node, env: Env, edited: Config, opts: Options,
                                       outcome: Outcome, x: string)
    requires Updated(app, access, file, env, edited, opts, outcome)
    ensures x in Listed(FileAfter(outcome, file)) && x !in Listed(file) ==> opts.mode == FORCE_FILE && x in opts.paths
    ensures x in Listed(file) && x !in Listed(FileAfter(outcome, file)) ==>
              opts.mode == RUNTIME_ENV_ONLY && x in opts.paths
  {
    var draft := PlanSplit(app, access, file, env, edited, opts, outcome);
    PlanKeepsSync(app, access, file, env, edited, opts, outcome);
    ListedIs(app, edited, file, x);
    ListedIs(app, outcome.published, FileAfter(outcome, file), x);
    NormalizeTwice(FileDisabled(file));
    PrepareDisabled(app, access, file, env, edited, opts, draft);
  }

  /** A field that the update does not ask for. */
  ghost predicate Unrequested(app: App, opts: Options, key: Key) {
    key in app.fields && key != DISABLED && !Names(opts.paths, key)
  }

  lemma {:induction false} UnrequestedAgrees(app: App, access: Access, file: Node, env: Env, edited: Config,
                                             opts: Options, outcome: Outcome, key: Key)
    requires Updated(app, access, file, env, edited, opts, outcome) && Unrequested(app, opts, key)
    ensures AgreeBelow(SettingText(key), Listed(file), Listed(FileAfter(outcome, file)))
  {
    forall x | Below(SettingText(key), x) ensures x in Listed(file) <==> x in Listed(FileAfter(outcome, file)) {
      ListChanges(app, access, file, env, edited, opts, outcome, x);
      if x in opts.paths {
        RequestedIsField(app, access, file, env, edited, opts, outcome, x);
        NamedBy(opts.paths, x);
        assert FoldApart(key, Segments(x));
        OtherPathIsElsewhere(key, x);
      }
    }
  }

  lemma {:induction false} NamedBy(paths: seq<string>, x: string)
    requires x in paths
    ensures Names(paths, Segments(x))
  {
    var i :| 0 <= i < |paths| && paths[i] == x;
  }

  /** The node of such a field is left alone. */
  lemma {:induction false} UnrequestedNodeStays(app: App, access: Access, file: Node, env: Env, edited: Config,
                                                opts: Options, outcome: Outcome, key: Key)
    requires Updated(app, access, file, env, edited, opts, outcome) && Unrequested(app, opts, key)
    ensures LoadLookup(FileAfter(outcome, file), key) == LoadLookup(file, key)
  {
    var draft := PlanSplit(app, access, file, env, edited, opts, outcome);
    PlanStores(app, access, file, env, edited, opts, outcome, draft, key);
    if Names(WriteList(draft), key) {
      WrittenIsRequested(app, access, file, env, edited, opts, draft, key);
    }
  }

  lemma {:induction false} WrittenIsRequested(app: App, access: Access, file: Node, env: Env, edited: Config,
                                              opts: Options, draft: Draft, key: Key)
    requires WellFormedApp(app) && Typed(app, edited) && Prepare(app, access, file, env, edited, opts) == Ok(draft)
    requires Names(WriteList(draft), key) && key != DISABLED
    ensures Names(opts.paths, key)
  {
    var i :| 0 <= i < |WriteList(draft)| && Segments(WriteList(draft)[i]) == key;
    DisabledPathSegments(app);
    assert i < |draft.paths| && draft.paths[i] in draft.paths;
    NamedBy(opts.paths, draft.paths[i]);
  }

  lemma {:induction false} SettingTextIsText(key: Key)
    requires Canonical(key)
    ensures SettingText(key) != ""
  {
    FoldedSegment(key, 0);
    assert CanonicalSegment(key[0]);
    assert Fold(key)[0] != "";
  }

  /** Whatever the mode, the file gives for a field that was not asked for what it gave before, in every environment,
      and the list holds its path as before. */
  lemma UnrequestedLeafStays(app: App, access: Access, file: Node, env: Env, edited: Config, opts: Options,
                             outcome: Outcome, key: Key, env': Env)
    requires Updated(app, access, file, env, edited, opts, outcome) && Unrequested(app, opts, key)
    ensures FileLeaf(app, FileAfter(outcome, file), env', key) == FileLeaf(app, file, env', key)
    ensures PathText(key) in Listed(FileAfter(outcome, file)) <==> PathText(key) in Listed(file)
  {
    var file' := FileAfter(outcome, file);
    UnrequestedNodeStays(app, access, file, env, edited, opts, outcome, key);
    UnrequestedAgrees(app, access, file, env, edited, opts, outcome, key);
    FileLeafAt(app, file, env', key);
    FileLeafAt(app, file', env', key);
    if LoadLookup(file, key).Some? {
      SettingTextIsText(key);
      ProcessSees(LoadLookup(file, key).value, SettingText(key), Listed(file), Listed(file'), env');
    }
    ListChanges(app, access, file, env, edited, opts, outcome, PathText(key));
    SegmentsOfPathText(key);
    if PathText(key) in opts.paths {
      NamedBy(opts.paths, PathText(key));
    }
  }

  // ---------------------------------------------------------------- a file that decodes

  lemma {:induction false} WrittenListDecodes(app: App, ss: seq<string>, path: string, disabled: set<string>, env: Env)
    ensures Decode(app, StringsType, Process(LeafNode(Strs(ss)), path, disabled, env)).Some?
  {
    ProcessStrings(LeafNode(Strs(ss)), path, disabled, env);
  }

  lemma {:induction false} WrittenOtherDecodes(app: App, ty: LeafType, v: Leaf, path: string, disabled: set<string>,
                                               env: Env)
    requires HasType(v, ty) && (v.Bool? || v.Int?)
    ensures Decode(app, ty, Process(LeafNode(v), path, disabled, env)).Some?
  {
    ProcessLeafNode(v, path, disabled, env);
    DecodeLeafNode(app, ty, v);
  }

  /** Whatever value was written, what is in the file decodes in every environment. */
  lemma {:induction false} WrittenLeafDecodes(app: App, file: Node, env: Env, key: Key, v: Leaf)
    requires WellFormedApp(app) && key in app.fields && HasType(v, app.fields[key].ty)
    requires !v.NilPtr? && !v.Other? && LoadLookup(file, key) == Some(LeafNode(v))
    ensures FileLeaf(app, file, env, key).Some?
  {
    FileLeafAt(app, file, env, key);
    match v
    case Str(_) =>
    case Strs(ss) => WrittenListDecodes(app, ss, SettingText(key), Listed(file), env);
    case Bool(_) => WrittenOtherDecodes(app, app.fields[key].ty, v, SettingText(key), Listed(file), env);
    case Int(_) => WrittenOtherDecodes(app, app.fields[key].ty, v, SettingText(key), Listed(file), env);
  }

  /** A requested field decodes afterwards, unless it was taken from the environment. */
  lemma {:induction false} RequestedLeafDecodes(app: App, access: Access, file: Node, env: Env, edited: Config,
                                                opts: Options, outcome: Outcome, p: string, env': Env)
    requires Updated(app, access, file, env, edited, opts, outcome) && p in opts.paths && Segments(p) in app.fields
    requires opts.mode == RUNTIME_ENV_ONLY ==> EnvValue(app, env, Segments(p)) == None
    ensures FileLeaf(app, FileAfter(outcome, file), env', Segments(p)).Some?
  {
    RequestedPathHandled(app, access, file, env, edited, opts, outcome, p);
    WrittenLeafDecodes(app, FileAfter(outcome, file), env', Segments(p), outcome.published[Segments(p)]);
  }

  /** Every field decodes. */
  ghost predicate Decodes(app: App, file: Node, env: Env) {
    forall k :: k in app.fields ==> FileLeaf(app, file, env, k).Some?
  }

  lemma {:induction false} ListDecodes(app: App, access: Access, file: Node, env: Env, edited: Config, opts: Options,
                                       outcome: Outcome, env': Env)
    requires Updated(app, access, file, env, edited, opts, outcome)
    ensures FileLeaf(app, FileAfter(outcome, file), env', DISABLED).Some?
  {
    PlanKeepsSync(app, access, file, env, edited, opts, outcome);
    PlainDisabledReads(app, FileAfter(outcome, file), env');
  }

  /** One field after an update, unless it was taken from the environment. */
  lemma {:induction false} FieldDecodes(app: App, access: Access, file: Node, env: Env, edited: Config, opts: Options,
                                        outcome: Outcome, key: Key, env': Env)
    requires Updated(app, access, file, env, edited, opts, outcome) && key in app.fields
    requires FileLeaf(app, file, env', key).Some?
    requires Names(opts.paths, key) && opts.mode == RUNTIME_ENV_ONLY ==> EnvValue(app, env, key) == None
    ensures FileLeaf(app, FileAfter(outcome, file), env', key).Some?
  {
    if key == DISABLED {
      ListDecodes(app, access, file, env, edited, opts, outcome, env');
    } else if Names(opts.paths, key) {
      var i :| 0 <= i < |opts.paths| && Segments(opts.paths[i]) == key;
      RequestedLeafDecodes(app, access, file, env, edited, opts, outcome, opts.paths[i], env');
    } else {
      UnrequestedLeafStays(app, access, file, env, edited, opts, outcome, key, env');
    }
  }

  // ---------------------------------------------------------------- a file that can be read

  /** Every key of every mapping is a scalar. */
  predicate ScalarKeys(n: Node)
    decreases n
  {
    && (n.kind == Mapping ==> forall i :: 0 <= i < |n.content| && i % 2 == 0 ==> n.content[i].kind == Scalar)
    && forall i :: 0 <= i < |n.content| ==> ScalarKeys(n.content[i])
  }

  lemma {:induction false} ReadableHasScalarKeys(n: Node)
    requires Readable(n)
    ensures ScalarKeys(n)
    decreases n
  {
    forall i | 0 <= i < |n.content| ensures ScalarKeys(n.content[i]) {
      ReadableHasScalarKeys(n.content[i]);
    }
  }

  /** Keys that do not fold alike are not the same. */
  lemma {:induction false} FoldedOnceIsReadable(n: Node)
    requires ScalarKeys(n) && FoldsOnce(n)
    ensures Readable(n)
    decreases n
  {
    forall i | 0 <= i < |n.content| ensures Readable(n.content[i]) {
      FoldedOnceIsReadable(n.content[i]);
    }
    if n.kind == Mapping {
      forall i, j | 0 <= i < j < |n.content| && i % 2 == 0 && j % 2 == 0
        ensures n.content[i].value != n.content[j].value
      {
        assert FoldDiffer(n.content, i, j);
      }
    }
  }

  lemma {:induction false} ReplaceScalarKeys(n: Node, i: nat, child: Node)
    requires ScalarKeys(n) && ScalarKeys(child) && i < |n.content| && (n.kind == Mapping ==> i % 2 == 1)
    ensures ScalarKeys(n.(content := n.content[i := child]))
  {
    var n' := n.(content := n.content[i := child]);
    forall j | 0 <= j < |n'.content| ensures ScalarKeys(n'.content[j]) {
      assert j != i ==> n'.content[j] == n.content[j];
    }
  }

  lemma {:induction false} PutScalarKeys(n: Node, p: Pos, m: Node)
    requires HasPos(n, p) && OnValues(n, p) && ScalarKeys(n) && ScalarKeys(m)
    ensures ScalarKeys(Put(n, p, m)) && (p != [] ==> Put(n, p, m).kind == n.kind)
    decreases |p|
  {
    if p != [] {
      PutScalarKeys(n.content[p[0]], p[1..], m);
      ReplaceScalarKeys(n, p[0], Put(n.content[p[0]], p[1..], m));
    }
  }

  lemma {:induction false} WithKeyScalarKeys(n: Node, key: string, blank: Node)
    requires WellFormed(n) && n.kind == Mapping && ScalarKeys(n) && ScalarKeys(blank)
    ensures ScalarKeys(WithKey(n, key, blank).0) && WithKey(n, key, blank).0.kind == Mapping
  {
    if MapIndex(n.content, key, 0).None? {
      var n' := WithKey(n, key, blank).0;
      forall i | 0 <= i < |n'.content|
        ensures ScalarKeys(n'.content[i]) && (i % 2 == 0 ==> n'.content[i].kind == Scalar)
      {
        if i < |n.content| {
          assert n'.content[i] == n.content[i];
        }
      }
    }
  }

  lemma {:induction false} EnsureScalarKeys(n: Node, key: Key, kind: ScalarKind, t: Node, p: Pos)
    requires WellFormed(n) && key != [] && ScalarKeys(n) && Ensure(n, key, kind) == Ok((t, p))
    ensures ScalarKeys(t) && t.kind == n.kind
    decreases |key|
  {
    WithKeyScalarKeys(n, key[0], BlankFor(kind, |key| == 1));
    if |key| > 1 {
      var n', i, child, q := EnsureStep(n, key, kind, t, p);
      EnsureScalarKeys(n'.content[i], key[1..], kind, child, q);
      ReplaceScalarKeys(n', i, child);
    }
  }

  lemma {:induction false} WrittenScalarKeys(u: Update)
    ensures ScalarKeys(Written(u))
  {
  }

  lemma {:induction false} LocateScalarKeys(root: Node, key: Key, u: Update, tree: Node, p: Pos)
    requires WellFormed(root) && ScalarKeys(root) && key != [] && Locate(root, key, u) == Ok((tree, p))
    ensures ScalarKeys(tree) && tree.kind == root.kind
  {
    if Resolve(root, key).Err? {
      EnsureScalarKeys(root, key, u.kind, tree, p);
    }
  }

  lemma {:induction false} ApplyScalarKeys(root: Node, key: Key, u: Update, overwrite: bool, t: Node, p: Pos)
    requires WellFormed(root) && ScalarKeys(root) && key != [] && ApplyAt(root, key, u, overwrite) == Ok((t, p))
    ensures ScalarKeys(t) && t.kind == root.kind
  {
    var tree := ApplySplit(root, key, u, overwrite, t, p);
    LocateScalarKeys(root, key, u, tree, p);
    WrittenScalarKeys(u);
    PutScalarKeys(tree, p, Written(u));
  }

  lemma {:induction false} BatchScalarKeys(root: Node, us: seq<Update>, overwrite: bool, t: Node, ps: seq<Pos>)
    requires WellFormed(root) && ScalarKeys(root) && ApplyAll(root, us, overwrite) == Ok((t, ps))
    ensures ScalarKeys(t) && t.kind == root.kind
    decreases |us|
  {
    if us != [] {
      var n := |us| - 1;
      var tree := BatchSnoc(root, us, overwrite, t, ps);
      BatchScalarKeys(root, us[..n], overwrite, tree, ps[..n]);
      ApplyScalarKeys(tree, Segments(us[n].path), us[n], overwrite, t, ps[n]);
    }
  }

  /** An update leaves a file that can be read. */
  lemma {:induction false} ReadableStays(app: App, access: Access, file: Node, env: Env, edited: Config, opts: Options,
                                         outcome: Outcome)
    requires Updated(app, access, file, env, edited, opts, outcome) && CanRead(file)
    ensures CanRead(FileAfter(outcome, file))
  {
    var draft := PlanSplit(app, access, file, env, edited, opts, outcome);
    if WriteList(draft) != [] {
      var tree := outcome.written.value;
      var us, ps :=
        PersistApplies(app, access, file, env, outcome.published, opts.mode, WriteList(draft), tree);
      PlanStores(app, access, file, env, edited, opts, outcome, draft, DISABLED);
      ReadableHasScalarKeys(file);
      BatchScalarKeys(file, us, opts.mode == FORCE_FILE, tree, ps);
      FoldedOnceIsReadable(tree);
    }
  }

  /** After reject and force-file, a file that was read and decoded is read and decoded still: a reload can only be
      turned down by validation. */
  lemma OnlyValidationTurnsDown(app: App, access: Access, file: Node, env: Env, edited: Config, opts: Options,
                                outcome: Outcome, env': Env)
    requires Updated(app, access, file, env, edited, opts, outcome) && opts.mode != RUNTIME_ENV_ONLY
    requires CanRead(file) && Decodes(app, file, env')
    ensures CanRead(FileAfter(outcome, file)) && Decodes(app, FileAfter(outcome, file), env')
    ensures Rebuild(app, FileAfter(outcome, file), env').Ok? ||
            Rebuild(app, FileAfter(outcome, file), env') == Err(ValidationFailed)
  {
    ReadableStays(app, access, file, env, edited, opts, outcome);
    forall k | k in app.fields ensures FileLeaf(app, FileAfter(outcome, file), env', k).Some? {
      FieldDecodes(app, access, file, env, edited, opts, outcome, k, env');
    }
  }

  // ---------------------------------------------------------------- runtime-env-only

  /** The requested paths that a variable owns. */
  function Owned(app: App, env: Env, paths: seq<string>): set<string> {
    set p | p in paths && ActiveEnv(app, env, p).Some?
  }

  /** What the file gives for a field once some paths are taken off its list. */
  function OpenedLeaf(app: App, file: Node, removed: set<string>, env: Env, key: Key): Option<Leaf>
    requires key in app.fields
  {
    match LoadLookup(file, key)
    case None => Some(Zero(app.fields[key].ty))
    case Some(n) => Decode(app, app.fields[key].ty, Process(n, SettingText(key), Listed(file) - removed, env))
  }

  lemma {:induction false} TakenAreOwned(app: App, access: Access, file: Node, env: Env, disabled: set<string>,
                                         c: Config, paths: seq<string>, d: Config, taken: set<string>)
    requires WellFormedApp(app) && Typed(app, c)
    requires TakeAllFromEnv(app, access, file, env, disabled, c, paths) == Ok((d, taken))
    ensures taken == Owned(app, env, paths)
  {
    TakeAllKeepsDisabled(app, access, file, env, disabled, c, paths, d, taken);
    forall p | p in paths ensures p in taken <==> ActiveEnv(app, env, p).Some? {
      var i :| 0 <= i < |paths| && paths[i] == p;
      TakenIsOwned(app, access, file, env, disabled, c, paths, d, taken, i);
    }
  }

  /** The draft of a runtime-env-only update, by what the caller knows. */
  lemma {:induction false} RuntimeDraft(app: App, access: Access, file: Node, env: Env, edited: Config, opts: Options,
                                        draft: Draft)
    requires WellFormedApp(app) && Typed(app, edited) && opts.mode == RUNTIME_ENV_ONLY && opts.paths != []
    requires Prepare(app, access, file, env, edited, opts) == Ok(draft)
    ensures draft.paths == Without(opts.paths, Owned(app, env, opts.paths))
    ensures Normalize(Disabled(app, draft.config)) ==
            Without(Normalize(Disabled(app, edited)), Owned(app, env, opts.paths))
  {
    var disabled := DisabledSet(Disabled(app, edited));
    var taken := RuntimeEnvOnlyRemoves(app, access, file, env, edited, opts, draft);
    var d := TakeAllFromEnv(app, access, file, env, disabled, edited, opts.paths).value.0;
    TakenAreOwned(app, access, file, env, disabled, edited, opts.paths, d, taken);
  }

  /** Runtime-env-only takes exactly the owned paths off the file's list. */
  lemma {:induction false} RuntimeListIs(app: App, access: Access, file: Node, env: Env, edited: Config, opts: Options,
                                         outcome: Outcome)
    requires Updated(app, access, file, env, edited, opts, outcome) && opts.mode == RUNTIME_ENV_ONLY
    ensures Listed(FileAfter(outcome, file)) == Listed(file) - Owned(app, env, opts.paths)
  {
    forall x ensures x in Listed(FileAfter(outcome, file)) <==> x in Listed(file) - Owned(app, env, opts.paths) {
      RuntimeListed(app, access, file, env, edited, opts, outcome, x);
    }
  }

  lemma {:induction false} RuntimeListed(app: App, access: Access, file: Node, env: Env, edited: Config, opts: Options,
                                         outcome: Outcome, x: string)
    requires Updated(app, access, file, env, edited, opts, outcome) && opts.mode == RUNTIME_ENV_ONLY
    ensures x in Listed(FileAfter(outcome, file)) <==> x in Listed(file) && x !in Owned(app, env, opts.paths)
  {
    var draft := PlanSplit(app, access, file, env, edited, opts, outcome);
    ListChanges(app, access, file, env, edited, opts, outcome, x);
    if opts.paths != [] {
      RuntimeDraft(app, access, file, env, edited, opts, draft);
      PlanKeepsSync(app, access, file, env, edited, opts, outcome);
      ListedIs(app, outcome.published, FileAfter(outcome, file), x);
      ListedIs(app, edited, file, x);
      NormalizeTwice(FileDisabled(file));
    }
  }

  lemma {:induction false} OwnedNodeStays(app: App, access: Access, file: Node, env: Env, edited: Config,
                                          opts: Options, outcome: Outcome, key: Key)
    requires Updated(app, access, file, env, edited, opts, outcome) && opts.mode == RUNTIME_ENV_ONLY
    requires key in app.fields && EnvValue(app, env, key).Some? && opts.paths != []
    ensures LoadLookup(FileAfter(outcome, file), key) == LoadLookup(file, key)
  {
    var draft := PlanSplit(app, access, file, env, edited, opts, outcome);
    PlanStores(app, access, file, env, edited, opts, outcome, draft, key);
    RuntimeDraft(app, access, file, env, edited, opts, draft);
    if Names(WriteList(draft), key) {
      OwnedIsNotWritten(app, env, opts.paths, draft, key);
    }
  }

  lemma {:induction false} OwnedIsNotWritten(app: App, env: Env, paths: seq<string>, draft: Draft, key: Key)
    requires WellFormedApp(app) && draft.paths == Without(paths, Owned(app, env, paths))
    requires key in app.fields && EnvValue(app, env, key).Some?
    ensures !Names(WriteList(draft), key)
  {
    DisabledPathSegments(app);
    assert EnvTag(app, DISABLED) == None;
    forall i | 0 <= i < |WriteList(draft)| ensures Segments(WriteList(draft)[i]) != key {
      if i < |draft.paths| {
        assert draft.paths[i] in draft.paths;
      }
    }
  }

  lemma {:induction false} OwnedLeafIs(app: App, access: Access, file: Node, env: Env, edited: Config, opts: Options,
                                       outcome: Outcome, key: Key, env': Env)
    requires Updated(app, access, file, env, edited, opts, outcome) && opts.mode == RUNTIME_ENV_ONLY
    requires key in app.fields && EnvValue(app, env, key).Some? && opts.paths != []
    ensures FileLeaf(app, FileAfter(outcome, file), env', key) ==
            OpenedLeaf(app, file, Owned(app, env, opts.paths), env', key)
  {
    OwnedNodeStays(app, access, file, env, edited, opts, outcome, key);
    RuntimeListIs(app, access, file, env, edited, opts, outcome);
    FileLeafAt(app, FileAfter(outcome, file), env', key);
  }

  /** After runtime-env-only, a file that was decoded is decoded still exactly if every requested field that a variable
      owns decodes with the owned paths off the list: its placeholders then take what the environment holds. */
  lemma RuntimeDecodesExactly(app: App, access: Access, file: Node, env: Env, edited: Config, opts: Options,
                              outcome: Outcome, env': Env)
    requires Updated(app, access, file, env, edited, opts, outcome) && opts.mode == RUNTIME_ENV_ONLY
    requires Decodes(app, file, env')
    ensures Decodes(app, FileAfter(outcome, file), env') <==>
            forall k :: k in app.fields && Names(opts.paths, k) && EnvValue(app, env, k).Some? ==>
              OpenedLeaf(app, file, Owned(app, env, opts.paths), env', k).Some?
  {
    forall k | k in app.fields
      ensures FileLeaf(app, FileAfter(outcome, file), env', k).Some? <==>
              (Names(opts.paths, k) && EnvValue(app, env, k).Some? ==>
                OpenedLeaf(app, file, Owned(app, env, opts.paths), env', k).Some?)
    {
      if Names(opts.paths, k) && EnvValue(app, env, k).Some? {
        OwnedLeafIs(app, access, file, env, edited, opts, outcome, k, env');
      } else {
        FieldDecodes(app, access, file, env, edited, opts, outcome, k, env');
      }
    }
  }
}
