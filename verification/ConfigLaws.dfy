/** The laws of the configuration engine: update then reload, disabled paths, and the environment. */
module ConfigLaws {
  import opened Text
  import opened PathLists
  import opened Placeholders
  import opened YamlTree
  import opened YamlUpdates
  import opened ConfigFile
  import opened ConfigModel
  import opened ConfigReload

  // ---------------------------------------------------------------- disabled paths on file and in memory

  /** A setting that is missing, or a list of strings without placeholders. */
  ghost predicate PlainList(setting: Option<Node>) {
    match setting
    case None => true
    case Some(n) =>
      && n.kind == Sequence && n.tag != "!!null" && AllStrings(n.content)
      && forall i :: 0 <= i < |n.content| ==> Plain(n.content[i].value)
  }

  /** The file's disabled_paths is missing, or a list of strings without placeholders. */
  ghost predicate PlainDisabled(file: Node) {
    PlainList(LoadLookup(file, DISABLED))
  }

  /** The snapshot's disabled_paths is the file's, in normal form. */
  ghost predicate Synced(app: App, c: Config, file: Node)
    requires WellFormedApp(app) && Typed(app, c)
  {
    Disabled(app, c) == Normalize(FileDisabled(file))
  }

  lemma PlainDisabledReads(app: App, file: Node, env: Env)
    requires WellFormedApp(app) && PlainDisabled(file)
    ensures FileLeaf(app, file, env, DISABLED) == Some(Strs(FileDisabled(file)))
  {
    FileLeafAt(app, file, env, DISABLED);
    match LoadLookup(file, DISABLED)
    case None =>
    case Some(n) =>
      ProcessPlainItems(n, SettingText(DISABLED), DisabledSet(FileDisabled(file)), env);
  }

  lemma ProcessPlainItems(n: Node, path: string, disabled: set<string>, env: Env)
    requires n.kind == Sequence && AllStrings(n.content)
    requires forall i :: 0 <= i < |n.content| ==> Plain(n.content[i].value)
    ensures Process(n, path, disabled, env) == n
  {
    var n' := Process(n, path, disabled, env);
    forall i | 0 <= i < |n.content|
      ensures n'.content[i] == n.content[i]
    {
      assert n'.content[i] == Process(n.content[i], path, disabled, env);
      SubstitutePlain(n.content[i].value, env, path !in disabled);
    }
    assert n'.content == n.content;
  }

  /** One field of the snapshot before validation. */
  lemma UnvalidatedAt(app: App, file: Node, env: Env, c: Config, key: Key)
    requires WellFormedApp(app) && key in app.fields && Unvalidated(app, file, env) == Some(c)
    ensures FileLeaf(app, file, env, key).Some?
    ensures FileLeaf(app, file, env, DISABLED).Some? && FileLeaf(app, file, env, DISABLED).value.Strs?
    ensures c[key] ==
            OverrideLeaf(app, env, DisabledSet(FileLeaf(app, file, env, DISABLED).value.ss), key,
                         FileLeaf(app, file, env, key).value)
  {
    FileLeafTyped(app, file, env, DISABLED);
  }

  /** One field of the rebuilt snapshot. */
  lemma RebuildAt(app: App, file: Node, env: Env, c: Config) returns (raw: Config)
    requires WellFormedApp(app) && Settle(app, file, env) == Ok(c)
    ensures Unvalidated(app, file, env) == Some(raw) && Typed(app, raw) && Validate(app, raw) == Some(c)
  {
    raw := Unvalidated(app, file, env).value;
  }

  /** A reload brings the in-memory list in line with the file's. */
  lemma RebuildSyncs(app: App, file: Node, env: Env, c: Config)
    requires WellFormedApp(app) && PlainDisabled(file) && Settle(app, file, env) == Ok(c)
    ensures Synced(app, c, file)
  {
    var raw := RebuildAt(app, file, env, c);
    UnvalidatedAt(app, file, env, raw, DISABLED);
    PlainDisabledReads(app, file, env);
  }

  // ---------------------------------------------------------------- the draft's disabled list

  lemma {:induction false} TakeAllKeepsDisabled(app: App, access: Access, file: Node, env: Env, disabled: set<string>,
                                                c: Config, paths: seq<string>, d: Config, taken: set<string>)
    requires WellFormedApp(app) && Typed(app, c)
    requires TakeAllFromEnv(app, access, file, env, disabled, c, paths) == Ok((d, taken))
    ensures DISABLED in d && d[DISABLED] == c[DISABLED]
    ensures forall p :: p in taken ==> p in paths
  {
    if paths != [] {
      var n := |paths| - 1;
      var (d0, taken0) := TakeAllFromEnv(app, access, file, env, disabled, c, paths[..n]).value;
      TakeAllKeepsDisabled(app, access, file, env, disabled, c, paths[..n], d0, taken0);
    }
  }

  /** Force-file adds exactly the requested paths. */
  lemma ForceFileAdds(app: App, access: Access, file: Node, env: Env, edited: Config, opts: Options, draft: Draft)
    requires WellFormedApp(app) && Typed(app, edited) && opts.mode == FORCE_FILE
    requires Prepare(app, access, file, env, edited, opts) == Ok(draft)
    ensures var before := Normalize(Disabled(app, edited));
            var after := Normalize(Disabled(app, draft.config));
            after == Merge(before, Normalize(opts.paths)) && (!draft.metadata ==> after == before)
  {
    var current := Disabled(app, edited);
    NormalizeTwice(current + opts.paths);
    NormalizeAppend(current, opts.paths);
  }

  /** Runtime-env-only removes exactly the paths that it took from the environment. */
  lemma RuntimeEnvOnlyRemoves(app: App, access: Access, file: Node, env: Env, edited: Config, opts: Options,
                              draft: Draft)
    returns (taken: set<string>)
    requires WellFormedApp(app) && Typed(app, edited) && opts.mode == RUNTIME_ENV_ONLY && opts.paths != []
    requires Prepare(app, access, file, env, edited, opts) == Ok(draft)
    ensures TakeAllFromEnv(app, access, file, env, DisabledSet(Disabled(app, edited)), edited, opts.paths).Ok?
    ensures taken ==
            TakeAllFromEnv(app, access, file, env, DisabledSet(Disabled(app, edited)), edited, opts.paths).value.1
    ensures forall p :: p in taken ==> p in opts.paths
    ensures draft.paths == Without(opts.paths, taken)
    ensures var before := Normalize(Disabled(app, edited));
            var after := Normalize(Disabled(app, draft.config));
            after == Without(before, taken) && (!draft.metadata ==> after == before)
  {
    var current := Disabled(app, edited);
    var base := Normalize(current);
    var (c, taken') := TakeAllFromEnv(app, access, file, env, DisabledSet(current), edited, opts.paths).value;
    taken := taken';
    TakeAllKeepsDisabled(app, access, file, env, DisabledSet(current), edited, opts.paths, c, taken);
    if taken == {} || !draft.metadata {
      WithoutNone(base, taken);
    }
    NormalizeWithout(current, taken);
  }

  /** The disabled list that each mode publishes: reject leaves it alone, force-file adds the requested
      paths, runtime-env-only removes the paths it took from the environment. Without the metadata flag
      the list does not change. */
  lemma PrepareDisabled(app: App, access: Access, file: Node, env: Env, edited: Config, opts: Options, draft: Draft)
    requires WellFormedApp(app) && Typed(app, edited)
    requires Prepare(app, access, file, env, edited, opts) == Ok(draft)
    ensures var before := Normalize(Disabled(app, edited));
            var after := Normalize(Disabled(app, draft.config));
            && (opts.mode != FORCE_FILE && opts.mode != RUNTIME_ENV_ONLY ==> after == before)
            && (!draft.metadata ==> after == before)
            && (forall p :: p in after && p !in before ==> opts.mode == FORCE_FILE && p in Normalize(opts.paths))
            && (forall p :: p in before && p !in after ==> opts.mode == RUNTIME_ENV_ONLY && p in opts.paths)
            && (opts.mode == FORCE_FILE ==> forall p :: p in Normalize(opts.paths) ==> p in after)
  {
    if opts.mode == FORCE_FILE {
      ForceFileAdds(app, access, file, env, edited, opts, draft);
      var before := Normalize(Disabled(app, edited));
      forall p ensures p in Merge(before, Normalize(opts.paths)) <==> p in before || p in Normalize(opts.paths) {
        MergeMember(before, Normalize(opts.paths), p);
      }
    } else if opts.mode == RUNTIME_ENV_ONLY && opts.paths != [] {
      var taken := RuntimeEnvOnlyRemoves(app, access, file, env, edited, opts, draft);
    }
  }

  // ---------------------------------------------------------------- in-memory list and file stay together

  /** The file after an update. */
  function FileAfter(outcome: Outcome, file: Node): Node {
    if outcome.written.Some? then outcome.written.value else file
  }

  /** What a successful plan went through. */
  lemma PlanSplit(app: App, access: Access, file: Node, env: Env, edited: Config, opts: Options, outcome: Outcome)
    returns (draft: Draft)
    requires WellFormedApp(app) && Typed(app, edited)
    requires Plan(app, access, file, env, edited, opts) == Ok(outcome)
    ensures Prepare(app, access, file, env, edited, opts) == Ok(draft)
    ensures Typed(app, draft.config) && Validate(app, draft.config) == Some(outcome.published)
    ensures Typed(app, outcome.published)
    ensures WriteList(draft) == [] ==> outcome.written == None
    ensures WriteList(draft) != [] ==>
              outcome.written.Some? &&
              Persist(app, access, file, env, outcome.published, opts.mode, WriteList(draft)) ==
                Ok(outcome.written.value)
  {
    draft := Prepare(app, access, file, env, edited, opts).value;
  }

  /** What an update leaves under each key of the file. */
  lemma PlanStores(app: App, access: Access, file: Node, env: Env, edited: Config, opts: Options, outcome: Outcome,
                   draft: Draft, key: Key)
    requires WellFormedApp(app) && Typed(app, edited) && WellFormed(file) && FitKeys(file, DISABLED) &&
             key in app.fields
    requires Plan(app, access, file, env, edited, opts) == Ok(outcome)
    requires Prepare(app, access, file, env, edited, opts) == Ok(draft)
    ensures WellFormed(FileAfter(outcome, file)) && FitKeys(FileAfter(outcome, file), DISABLED)
    ensures Names(WriteList(draft), key) ==>
              var v := outcome.published[key];
              !v.NilPtr? && !v.Other? && LoadLookup(FileAfter(outcome, file), key) == Some(LeafNode(v))
    ensures !Names(WriteList(draft), key) ==> LoadLookup(FileAfter(outcome, file), key) == LoadLookup(file, key)
  {
    var draft' := PlanSplit(app, access, file, env, edited, opts, outcome);
    if WriteList(draft) != [] {
      PersistStores(app, access, file, env, outcome.published, opts.mode, WriteList(draft), outcome.written.value, key);
    }
  }

  lemma {:induction false} StringItemsPlain(items: seq<Node>, x: string)
    requires forall i :: 0 <= i < |items| ==> Plain(items[i].value)
    requires x in StringItems(items)
    ensures Plain(x)
  {
    if x !in StringItems(items[..|items| - 1]) {
      assert x == items[|items| - 1].value;
    } else {
      StringItemsPlain(items[..|items| - 1], x);
    }
  }

  lemma FileDisabledPlain(file: Node, x: string)
    requires PlainDisabled(file) && x in Normalize(FileDisabled(file))
    ensures Plain(x)
  {
    NormalizeMember(FileDisabled(file), x);
    var i :| 0 <= i < |FileDisabled(file)| && TrimSpace(FileDisabled(file)[i]) == x;
    var y := FileDisabled(file)[i];
    StringItemsPlain(LoadLookup(file, DISABLED).value.content, y);
    PlainTrim(y);
  }

  /** Every disabled path of a snapshot is free of placeholders. */
  ghost predicate PlainInMemory(app: App, c: Config)
    requires WellFormedApp(app) && Typed(app, c)
  {
    forall x :: x in Normalize(Disabled(app, c)) ==> Plain(x)
  }

  lemma SyncedIsPlain(app: App, c: Config, file: Node)
    requires WellFormedApp(app) && Typed(app, c) && PlainDisabled(file) && Synced(app, c, file)
    ensures PlainInMemory(app, c)
  {
    NormalizeTwice(FileDisabled(file));
    forall x | x in Normalize(Disabled(app, c)) ensures Plain(x) {
      FileDisabledPlain(file, x);
    }
  }

  /** A path that was written names a field, so it holds no placeholder. */
  lemma WrittenPathIsKey(app: App, access: Access, file: Node, env: Env, c: Config, mode: int, paths: seq<string>,
                         tree: Node, x: string)
    requires WellFormedApp(app) && Typed(app, c) && Persist(app, access, file, env, c, mode, paths) == Ok(tree)
    requires x in paths
    ensures Plain(x)
  {
    var us, ps := PersistApplies(app, access, file, env, c, mode, paths, tree);
    var i :| 0 <= i < |paths| && paths[i] == x;
    NoDollarInPath(x);
    NoDollarIsPlain(x);
  }

  /** A path that an update adds to the list is among those that it writes. */
  lemma AddedPathIsWritten(app: App, access: Access, file: Node, env: Env, edited: Config, opts: Options, draft: Draft,
                           x: string)
    requires WellFormedApp(app) && Typed(app, edited) && Normalize(opts.paths) == opts.paths
    requires Prepare(app, access, file, env, edited, opts) == Ok(draft)
    requires x in Normalize(Disabled(app, draft.config)) && x !in Normalize(Disabled(app, edited))
    ensures x in WriteList(draft)
  {
    PrepareDisabled(app, access, file, env, edited, opts, draft);
  }

  /** The list that an update publishes holds no placeholder, if the list before it held none. */
  lemma PublishedPlain(app: App, access: Access, file: Node, env: Env, edited: Config, opts: Options,
                          outcome: Outcome, draft: Draft, x: string)
    requires WellFormedApp(app) && Typed(app, edited) && PlainInMemory(app, edited) &&
             Normalize(opts.paths) == opts.paths
    requires Plan(app, access, file, env, edited, opts) == Ok(outcome)
    requires Prepare(app, access, file, env, edited, opts) == Ok(draft)
    requires x in Disabled(app, outcome.published)
    ensures Plain(x)
  {
    var draft' := PlanSplit(app, access, file, env, edited, opts, outcome);
    if x !in Normalize(Disabled(app, edited)) {
      AddedPathIsWritten(app, access, file, env, edited, opts, draft, x);
      WrittenPathIsKey(app, access, file, env, outcome.published, opts.mode, WriteList(draft), outcome.written.value,
                       x);
    }
  }

  /** A draft with the metadata flag writes disabled_paths. */
  lemma MetadataIsWritten(app: App, draft: Draft)
    requires WellFormedApp(app) && draft.metadata
    ensures Names(WriteList(draft), DISABLED)
  {
    DisabledPathSegments(app);
    assert WriteList(draft)[|draft.paths|] == DISABLED_PATH;
  }

  /** A written list is the list that is read back. */
  lemma WrittenList(list: seq<string>)
    requires forall i :: 0 <= i < |list| ==> Plain(list[i])
    ensures var setting := Some(Node(Sequence, "!!seq", "", StringNodes(list)));
            PlainList(setting) && ListItems(setting) == list
  {
    StringItemsOf(list);
  }

  /** The node that writing a list leaves. */
  lemma {:induction false} ListNodeIs(list: seq<string>)
    ensures LeafNode(Strs(list)) == Node(Sequence, "!!seq", "", StringNodes(Normalize(list)))
  {
  }

  lemma {:induction false} ListSettingIs(file: Node, list: seq<string>)
    requires Normalize(list) == list && LoadLookup(file, DISABLED) == Some(LeafNode(Strs(list)))
    requires forall i :: 0 <= i < |list| ==> Plain(list[i])
    ensures PlainDisabled(file) && FileDisabled(file) == list
  {
    ListNodeIs(list);
    WrittenList(list);
  }

  lemma WrittenListSyncs(app: App, c: Config, list: seq<string>, file: Node)
    requires WellFormedApp(app) && Typed(app, c) && c[DISABLED] == Strs(Normalize(list))
    requires LoadLookup(file, DISABLED) == Some(LeafNode(c[DISABLED]))
    requires forall x :: x in Normalize(list) ==> Plain(x)
    ensures PlainDisabled(file) && Synced(app, c, file)
  {
    NormalizeTwice(list);
    ListSettingIs(file, Normalize(list));
  }

  /** A list that is not written is still there. */
  lemma UnwrittenListSyncs(app: App, c: Config, file: Node, file': Node)
    requires WellFormedApp(app) && Typed(app, c) && c[DISABLED] == Strs(Normalize(FileDisabled(file)))
    requires LoadLookup(file', DISABLED) == LoadLookup(file, DISABLED) && PlainDisabled(file)
    ensures PlainDisabled(file') && Synced(app, c, file')
  {
  }

  /** An update keeps the in-memory list and the file's list free of placeholders. */
  lemma PlanKeepsPlain(app: App, access: Access, file: Node, env: Env, edited: Config, opts: Options, outcome: Outcome)
    requires WellFormedApp(app) && Typed(app, edited) && WellFormed(file) && FitKeys(file, DISABLED)
    requires PlainDisabled(file) && PlainInMemory(app, edited) && Normalize(opts.paths) == opts.paths
    requires Plan(app, access, file, env, edited, opts) == Ok(outcome)
    ensures PlainDisabled(FileAfter(outcome, file)) && PlainInMemory(app, outcome.published)
  {
    var draft := PlanSplit(app, access, file, env, edited, opts, outcome);
    PlanStores(app, access, file, env, edited, opts, outcome, draft, DISABLED);
    var list := Disabled(app, draft.config);
    NormalizeTwice(list);
    assert outcome.published[DISABLED] == Strs(Normalize(list));
    forall x | x in Normalize(list) ensures Plain(x) {
      PublishedPlain(app, access, file, env, edited, opts, outcome, draft, x);
    }
    if Names(WriteList(draft), DISABLED) {
      WrittenListSyncs(app, outcome.published, list, FileAfter(outcome, file));
    }
  }

  /** An update by a function that leaves env_override alone keeps the in-memory list equal to the file's,
      in normal form, whatever the mode. */
  lemma PlanKeepsSync(app: App, access: Access, file: Node, env: Env, edited: Config, opts: Options, outcome: Outcome)
    requires WellFormedApp(app) && Typed(app, edited) && WellFormed(file) && FitKeys(file, DISABLED)
    requires PlainDisabled(file) && Synced(app, edited, file) && Normalize(opts.paths) == opts.paths
    requires Plan(app, access, file, env, edited, opts) == Ok(outcome)
    ensures PlainDisabled(FileAfter(outcome, file))
    ensures Synced(app, outcome.published, FileAfter(outcome, file))
  {
    SyncedIsPlain(app, edited, file);
    PlanKeepsPlain(app, access, file, env, edited, opts, outcome);
    var draft := PlanSplit(app, access, file, env, edited, opts, outcome);
    PlanStores(app, access, file, env, edited, opts, outcome, draft, DISABLED);
    var list := Disabled(app, draft.config);
    assert outcome.published[DISABLED] == Strs(Normalize(list));
    if Names(WriteList(draft), DISABLED) {
      forall x | x in Normalize(list) ensures Plain(x) {
        PublishedPlain(app, access, file, env, edited, opts, outcome, draft, x);
      }
      WrittenListSyncs(app, outcome.published, list, FileAfter(outcome, file));
    } else {
      if draft.metadata {
        MetadataIsWritten(app, draft);
      }
      UnwrittenListStays(app, access, file, env, edited, opts, draft);
      UnwrittenListSyncs(app, outcome.published, file, FileAfter(outcome, file));
    }
  }

  lemma UnwrittenListStays(app: App, access: Access, file: Node, env: Env, edited: Config, opts: Options, draft: Draft)
    requires WellFormedApp(app) && Typed(app, edited) && Synced(app, edited, file)
    requires Prepare(app, access, file, env, edited, opts) == Ok(draft) && !draft.metadata
    ensures Normalize(Disabled(app, draft.config)) == Normalize(FileDisabled(file))
  {
    PrepareDisabled(app, access, file, env, edited, opts, draft);
    NormalizeTwice(FileDisabled(file));
  }
}
