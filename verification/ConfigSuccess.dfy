/** When an update succeeds, by what the caller can check before it, and what it then publishes. */
module ConfigSuccess {
  import opened Text
  import opened PathLists
  import opened Placeholders
  import opened YamlTree
  import opened YamlUpdates
  import opened YamlSuccess
  import opened ConfigFile
  import opened ConfigModel
  import opened ConfigReload
  import opened ConfigLaws
  import opened ConfigRoundTrip
  import opened ConfigKeeping
  import opened ConfigRuns

  // ---------------------------------------------------------------- what is validated

  /** The value that a variable holds for a field, in the field's type. */
  function EnvLeaf(app: App, env: Env, key: Key): Option<Leaf>
    requires key in app.fields
  {
    match EnvValue(app, env, key)
    case None => None
    case Some(raw) => FromEnv(app, app.fields[key].ty, raw)
  }

  /** The list in the candidate: force-file adds the requested paths, runtime-env-only removes those that a variable
      owns, and nothing else touches it. */
  function ListAfter(app: App, env: Env, list: seq<string>, opts: Options): seq<string> {
    if opts.paths == [] then list
    else if opts.mode == FORCE_FILE then Normalize(list + opts.paths)
    else if opts.mode == RUNTIME_ENV_ONLY && Owned(app, env, opts.paths) != {} then
      Without(Normalize(list), Owned(app, env, opts.paths))
    else list
  }

  /** A field of the candidate: the caller's value, or in runtime-env-only mode, for a requested field that a variable
      owns, the variable's. */
  ghost function CandidateLeaf(app: App, env: Env, edited: Config, opts: Options, k: Key): Leaf
    requires WellFormedApp(app) && Typed(app, edited) && k in edited
  {
    if k == DISABLED then Strs(ListAfter(app, env, Disabled(app, edited), opts))
    else if opts.mode == RUNTIME_ENV_ONLY && Names(opts.paths, k) && EnvLeaf(app, env, k).Some? then
      EnvLeaf(app, env, k).value
    else edited[k]
  }

  lemma {:induction false} CandidateLeafTyped(app: App, env: Env, edited: Config, opts: Options, k: Key)
    requires WellFormedApp(app) && Typed(app, edited) && k in edited
    ensures HasType(CandidateLeaf(app, env, edited, opts, k), app.fields[k].ty)
  {
    if EnvLeaf(app, env, k).Some? {
      FromEnvTyped(app, app.fields[k].ty, EnvValue(app, env, k).value);
    }
  }

  /** The snapshot that goes to validation. */
  ghost function Candidate(app: App, env: Env, edited: Config, opts: Options): (c: Config)
    requires WellFormedApp(app) && Typed(app, edited)
    ensures Typed(app, c)
  {
    var c := map k | k in edited :: CandidateLeaf(app, env, edited, opts, k);
    assert Typed(app, c) by {
      forall k | k in c ensures HasType(c[k], app.fields[k].ty) {
        CandidateLeafTyped(app, env, edited, opts, k);
      }
    }
    c
  }

  // ---------------------------------------------------------------- the condition

  /** What the writer must know of the file before anything else. */
  predicate IsAccessible(access: Access, file: Node) {
    access.hasPath && access.isYaml && file.kind == Mapping
  }

  /** Runtime-env-only at one requested path: a variable owns the field and its text is of the field's type, or the path
      leads in the file to something without a placeholder and is not in the list. */
  predicate CanTake(app: App, access: Access, file: Node, env: Env, disabled: set<string>, path: string) {
    if ActiveEnv(app, env, path).Some? then
      FromEnv(app, app.fields[Segments(path)].ty, ActiveEnv(app, env, path).value).Some?
    else
      && IsAccessible(access, file)
      && Leads(file, Segments(path)).Some? && !ContainsPlaceholder(Leads(file, Segments(path)).value)
      && path !in disabled
  }

  predicate CanTakeAll(app: App, access: Access, file: Node, env: Env, disabled: set<string>, paths: seq<string>) {
    forall i :: 0 <= i < |paths| ==> CanTake(app, access, file, env, disabled, paths[i])
  }

  /** The paths that are written back: the requested ones, without those that a variable owns in runtime-env-only mode,
      and the list's own path if the list changes. */
  function Writes(app: App, env: Env, list: seq<string>, opts: Options): seq<string> {
    if opts.paths == [] then []
    else if opts.mode == RUNTIME_ENV_ONLY then
      Without(opts.paths, Owned(app, env, opts.paths)) +
      if exists p :: p in Owned(app, env, opts.paths) && p in Normalize(list) then [DISABLED_PATH] else []
    else if opts.mode == FORCE_FILE && exists p :: p in opts.paths && p !in Normalize(list) then
      opts.paths + [DISABLED_PATH]
    else opts.paths
  }

  /** The list can be made where it is missing: its section is missing or a mapping. */
  predicate CanMakeList(file: Node) {
    file.kind == Mapping &&
    match Leads(file, ["env_override"])
    case None => true
    case Some(n) => n.kind == Mapping
  }

  /** One path can be written: it names a field with a value that can be persisted and, outside force-file, without a
      variable that is set. It leads in the file to a node of the kind that the value needs, which outside force-file
      holds no placeholder; only the list may be missing, and not in runtime-env-only mode. Where an earlier path names
      the same field, the value itself must hold no placeholder outside force-file. */
  ghost predicate CanWrite(app: App, file: Node, env: Env, c: Config, mode: int, writes: seq<string>, i: nat)
    requires Typed(app, c) && i < |writes|
  {
    && Persists(app, env, c, mode, Segments(writes[i]))
    && (mode == RUNTIME_ENV_ONLY ==> LeadsToFree(file, Segments(writes[i]), false))
    && if Names(writes[..i], Segments(writes[i])) then IsFree(LeafNode(c[Segments(writes[i])]), mode == FORCE_FILE)
       else Fits(file, writes[i], c[Segments(writes[i])], mode == FORCE_FILE)
  }

  predicate Persists(app: App, env: Env, c: Config, mode: int, key: Key)
    requires Typed(app, c)
  {
    && key in app.fields && !c[key].NilPtr? && !c[key].Other?
    && (mode != FORCE_FILE ==> EnvValue(app, env, key) == None)
  }

  predicate LeadsToFree(file: Node, key: Key, overwrite: bool)
    requires key != []
  {
    Leads(file, key).Some? && IsFree(Leads(file, key).value, overwrite)
  }

  predicate Fits(file: Node, path: string, v: Leaf, overwrite: bool)
    requires !v.NilPtr? && !v.Other?
  {
    match Leads(file, Segments(path))
    case Some(n) => n.kind == (if v.Strs? then Sequence else Scalar) && IsFree(n, overwrite)
    case None => path == DISABLED_PATH && CanMakeList(file)
  }

  /** All of them can be written. */
  ghost predicate CanWriteAll(app: App, access: Access, file: Node, env: Env, c: Config, mode: int, writes: seq<string>)
    requires Typed(app, c)
  {
    writes == [] ||
    (&& IsAccessible(access, file) && access.writable
     && (mode == REJECT || mode == FORCE_FILE || mode == RUNTIME_ENV_ONLY)
     && forall i :: 0 <= i < |writes| ==> CanWrite(app, file, env, c, mode, writes, i))
  }

  /** The whole condition. */
  ghost predicate CanUpdate(app: App, access: Access, file: Node, env: Env, edited: Config, opts: Options)
    requires WellFormedApp(app) && Typed(app, edited)
  {
    var list := Disabled(app, edited);
    && (opts.mode == RUNTIME_ENV_ONLY ==>
          CanTakeAll(app, access, file, env, DisabledSet(list), opts.paths))
    && Validate(app, Candidate(app, env, edited, opts)).Some?
    && CanWriteAll(app, access, file, env, Validate(app, Candidate(app, env, edited, opts)).value, opts.mode,
                   Writes(app, env, list, opts))
  }

  // ---------------------------------------------------------------- taking from the environment

  lemma {:induction false} TakeOneExactly(app: App, access: Access, file: Node, env: Env, disabled: set<string>,
                                          c: Config, path: string)
    ensures TakeFromEnv(app, access, file, env, disabled, c, path).Ok? <==>
            CanTake(app, access, file, env, disabled, path)
  {
  }

  lemma {:induction false} CanTakeSnoc(app: App, access: Access, file: Node, env: Env, disabled: set<string>,
                                       paths: seq<string>, n: nat)
    requires paths != [] && n == |paths| - 1
    ensures CanTakeAll(app, access, file, env, disabled, paths) <==>
            CanTakeAll(app, access, file, env, disabled, paths[..n]) &&
            CanTake(app, access, file, env, disabled, paths[n])
  {
    assert forall i :: 0 <= i < n ==> paths[..n][i] == paths[i];
  }

  lemma {:induction false} TakeAllExactly(app: App, access: Access, file: Node, env: Env, disabled: set<string>,
                                          c: Config, paths: seq<string>)
    ensures TakeAllFromEnv(app, access, file, env, disabled, c, paths).Ok? <==>
            CanTakeAll(app, access, file, env, disabled, paths)
  {
    if paths != [] {
      var n := |paths| - 1;
      TakeAllExactly(app, access, file, env, disabled, c, paths[..n]);
      CanTakeSnoc(app, access, file, env, disabled, paths, n);
      if TakeAllFromEnv(app, access, file, env, disabled, c, paths[..n]).Ok? {
        var d := TakeAllFromEnv(app, access, file, env, disabled, c, paths[..n]).value.0;
        TakeOneExactly(app, access, file, env, disabled, d, paths[n]);
      }
    }
  }

  lemma {:induction false} NamesSnoc(paths: seq<string>, n: nat, key: Key)
    requires paths != [] && n == |paths| - 1
    ensures Names(paths, key) <==> Names(paths[..n], key) || Segments(paths[n]) == key
  {
    if Names(paths, key) {
      var i :| 0 <= i < |paths| && Segments(paths[i]) == key;
      if i < n {
        assert paths[..n][i] == paths[i];
      }
    }
    if Names(paths[..n], key) {
      var i :| 0 <= i < n && Segments(paths[..n][i]) == key;
      assert paths[i] == paths[..n][i];
    }
  }

  /** What taking does to each field. */
  lemma {:induction false} TakenConfig(app: App, access: Access, file: Node, env: Env, disabled: set<string>, c: Config,
                                       paths: seq<string>, d: Config, taken: set<string>, k: Key)
    requires WellFormedApp(app) && Typed(app, c) && k in c
    requires TakeAllFromEnv(app, access, file, env, disabled, c, paths) == Ok((d, taken))
    ensures k in d && d[k] == if Names(paths, k) && EnvLeaf(app, env, k).Some? then EnvLeaf(app, env, k).value else c[k]
  {
    if paths != [] {
      var n := |paths| - 1;
      var (d0, taken0) := TakeAllFromEnv(app, access, file, env, disabled, c, paths[..n]).value;
      TakenConfig(app, access, file, env, disabled, c, paths[..n], d0, taken0, k);
      NamesSnoc(paths, n, k);
    }
  }

  // ---------------------------------------------------------------- the draft

  lemma {:induction false} DraftExactly(app: App, access: Access, file: Node, env: Env, edited: Config, opts: Options)
    requires WellFormedApp(app) && Typed(app, edited)
    ensures Prepare(app, access, file, env, edited, opts).Ok? <==>
            (opts.mode == RUNTIME_ENV_ONLY ==>
               CanTakeAll(app, access, file, env, DisabledSet(Disabled(app, edited)), opts.paths))
  {
    TakeAllExactly(app, access, file, env, DisabledSet(Disabled(app, edited)), edited, opts.paths);
  }

  lemma {:induction false} SameConfig(a: Config, b: Config)
    requires a.Keys == b.Keys && forall k :: k in a ==> a[k] == b[k]
    ensures a == b
  {
  }

  /** A runtime-env-only draft in terms of the paths that a variable owns. */
  lemma {:induction false} OwnedDraft(app: App, access: Access, file: Node, env: Env, edited: Config, opts: Options,
                                      draft: Draft, d: Config, owned: set<string>)
    requires WellFormedApp(app) && Typed(app, edited) && opts.mode == RUNTIME_ENV_ONLY && opts.paths != []
    requires Prepare(app, access, file, env, edited, opts) == Ok(draft) && owned == Owned(app, env, opts.paths)
    requires TakeAllFromEnv(app, access, file, env, DisabledSet(Disabled(app, edited)), edited, opts.paths).Ok?
    requires d == TakeAllFromEnv(app, access, file, env, DisabledSet(Disabled(app, edited)), edited, opts.paths).value.0
    ensures Typed(app, d) && Disabled(app, d) == Disabled(app, edited)
    ensures draft.config == d[DISABLED := Strs(ListAfter(app, env, Disabled(app, edited), opts))]
    ensures draft.paths == Without(opts.paths, owned)
    ensures draft.metadata <==> exists p :: p in owned && p in Normalize(Disabled(app, edited))
  {
    var disabled := DisabledSet(Disabled(app, edited));
    var taken := TakeAllFromEnv(app, access, file, env, disabled, edited, opts.paths).value.1;
    TakenAreOwned(app, access, file, env, disabled, edited, opts.paths, d, taken);
    TakeAllKeepsDisabled(app, access, file, env, disabled, edited, opts.paths, d, taken);
    TakeAllTyped(app, access, file, env, disabled, edited, opts.paths);
  }

  lemma {:induction false} OwnedWrites(app: App, env: Env, list: seq<string>, opts: Options, draft: Draft,
                                       owned: set<string>)
    requires opts.mode == RUNTIME_ENV_ONLY && opts.paths != [] && owned == Owned(app, env, opts.paths)
    requires draft.paths == Without(opts.paths, owned)
    requires draft.metadata <==> exists p :: p in owned && p in Normalize(list)
    ensures WriteList(draft) == Writes(app, env, list, opts)
  {
    assert draft.paths + [] == draft.paths;
  }

  lemma {:induction false} TakenLeafIs(app: App, access: Access, file: Node, env: Env, disabled: set<string>,
                                       edited: Config, opts: Options, c: Config, d: Config, taken: set<string>, k: Key)
    requires WellFormedApp(app) && Typed(app, edited) && opts.mode == RUNTIME_ENV_ONLY && k in edited
    requires TakeAllFromEnv(app, access, file, env, disabled, edited, opts.paths) == Ok((d, taken))
    requires c == d[DISABLED := Strs(ListAfter(app, env, Disabled(app, edited), opts))]
    ensures k in c && c[k] == CandidateLeaf(app, env, edited, opts, k)
  {
    TakenConfig(app, access, file, env, disabled, edited, opts.paths, d, taken, k);
  }

  lemma {:induction false} RuntimeDraftIs(app: App, access: Access, file: Node, env: Env, edited: Config, opts: Options,
                                          draft: Draft)
    requires WellFormedApp(app) && Typed(app, edited) && opts.mode == RUNTIME_ENV_ONLY && opts.paths != []
    requires Prepare(app, access, file, env, edited, opts) == Ok(draft)
    ensures draft.config == Candidate(app, env, edited, opts)
    ensures WriteList(draft) == Writes(app, env, Disabled(app, edited), opts)
  {
    var disabled, owned := DisabledSet(Disabled(app, edited)), Owned(app, env, opts.paths);
    var (d, taken) := TakeAllFromEnv(app, access, file, env, disabled, edited, opts.paths).value;
    OwnedDraft(app, access, file, env, edited, opts, draft, d, owned);
    OwnedWrites(app, env, Disabled(app, edited), opts, draft, owned);
    forall k | k in edited ensures draft.config[k] == CandidateLeaf(app, env, edited, opts, k) {
      TakenLeafIs(app, access, file, env, disabled, edited, opts, draft.config, d, taken, k);
    }
    SameConfig(draft.config, Candidate(app, env, edited, opts));
  }

  lemma {:induction false} ForceDraftIs(app: App, access: Access, file: Node, env: Env, edited: Config, opts: Options,
                                        draft: Draft)
    requires WellFormedApp(app) && Typed(app, edited) && opts.mode == FORCE_FILE && opts.paths != []
    requires Normalize(opts.paths) == opts.paths && Prepare(app, access, file, env, edited, opts) == Ok(draft)
    ensures draft.config == Candidate(app, env, edited, opts)
    ensures WriteList(draft) == Writes(app, env, Disabled(app, edited), opts)
  {
    ForceFileMetadata(app, access, file, env, edited, opts, draft);
    SameConfig(draft.config, Candidate(app, env, edited, opts));
    var list := Normalize(Disabled(app, edited));
    if p :| p in opts.paths && p !in list {
      var i :| 0 <= i < |opts.paths| && opts.paths[i] == p;
    }
    if i :| 0 <= i < |opts.paths| && opts.paths[i] !in list {
      assert opts.paths[i] in opts.paths;
    }
  }

  /** The draft is the candidate with the paths to write. */
  lemma {:induction false} DraftIs(app: App, access: Access, file: Node, env: Env, edited: Config, opts: Options,
                                   draft: Draft)
    requires WellFormedApp(app) && Typed(app, edited) && Normalize(opts.paths) == opts.paths
    requires Prepare(app, access, file, env, edited, opts) == Ok(draft)
    ensures draft.config == Candidate(app, env, edited, opts)
    ensures WriteList(draft) == Writes(app, env, Disabled(app, edited), opts)
  {
    if opts.paths != [] && opts.mode == RUNTIME_ENV_ONLY {
      RuntimeDraftIs(app, access, file, env, edited, opts, draft);
    } else if opts.paths != [] && opts.mode == FORCE_FILE {
      ForceDraftIs(app, access, file, env, edited, opts, draft);
    } else {
      forall k | k in edited ensures edited[k] == CandidateLeaf(app, env, edited, opts, k) {
        if Names(opts.paths, k) {
          assert opts.paths != [];
        }
      }
      SameConfig(edited, Candidate(app, env, edited, opts));
    }
  }

  // ---------------------------------------------------------------- the paths

  lemma {:induction false} PathExactly(app: App, access: Access, file: Node, env: Env, c: Config, mode: int,
                                       path: string)
    requires Typed(app, c) && IsAccessible(access, file)
    ensures PathUpdate(app, access, file, env, c, mode, path).Ok? <==>
            && Persists(app, env, c, mode, Segments(path))
            && (mode == RUNTIME_ENV_ONLY ==> LeadsToFree(file, Segments(path), false))
  {
  }

  ghost predicate AllUpdates(app: App, access: Access, file: Node, env: Env, c: Config, mode: int, paths: seq<string>)
    requires Typed(app, c)
  {
    forall i :: 0 <= i < |paths| ==> PathUpdate(app, access, file, env, c, mode, paths[i]).Ok?
  }

  lemma {:induction false} AllUpdatesSnoc(app: App, access: Access, file: Node, env: Env, c: Config, mode: int,
                                          paths: seq<string>, n: nat)
    requires Typed(app, c) && paths != [] && n == |paths| - 1
    ensures AllUpdates(app, access, file, env, c, mode, paths) <==>
            AllUpdates(app, access, file, env, c, mode, paths[..n]) &&
            PathUpdate(app, access, file, env, c, mode, paths[n]).Ok?
  {
    assert forall i :: 0 <= i < n ==> paths[..n][i] == paths[i];
  }

  lemma {:induction false} PathsExactly(app: App, access: Access, file: Node, env: Env, c: Config, mode: int,
                                        paths: seq<string>)
    requires Typed(app, c) && IsAccessible(access, file)
    ensures PathUpdates(app, access, file, env, c, mode, paths).Ok? <==>
            AllUpdates(app, access, file, env, c, mode, paths)
  {
    if paths != [] {
      var n := |paths| - 1;
      PathsExactly(app, access, file, env, c, mode, paths[..n]);
      AllUpdatesSnoc(app, access, file, env, c, mode, paths, n);
    }
  }

  // ---------------------------------------------------------------- the batch

  lemma {:induction false} FoldPrefix(a: Key, b: Key)
    requires a <= b
    ensures Fold(a) <= Fold(b)
  {
  }

  lemma {:induction false} FoldApartIsApart(a: Key, b: Key)
    requires FoldApart(a, b)
    ensures Apart(a, b)
  {
    if a <= b {
      FoldPrefix(a, b);
    } else if b <= a {
      FoldPrefix(b, a);
    }
  }

  lemma {:induction false} FieldsApart(app: App, a: Key, b: Key)
    requires WellFormedApp(app) && a in app.fields && b in app.fields && a != b
    ensures Apart(a, b)
  {
    assert FoldApart(a, b);
    FoldApartIsApart(a, b);
  }

  /** The updates that a list of paths is turned into. */
  ghost predicate AreUpdates(app: App, c: Config, paths: seq<string>, us: seq<Update>)
    requires Typed(app, c)
  {
    |us| == |paths| && forall i :: 0 <= i < |us| ==> IsUpdate(app, c, paths[i], us[i])
  }

  predicate IsUpdate(app: App, c: Config, path: string, u: Update)
    requires Typed(app, c)
  {
    && Segments(path) in app.fields && u.path == path
    && !c[Segments(path)].NilPtr? && !c[Segments(path)].Other?
    && Written(u) == LeafNode(c[Segments(path)]) && (u.createMissing <==> path == DISABLED_PATH)
  }

  lemma {:induction false} UpdatesAre(app: App, access: Access, file: Node, env: Env, c: Config, mode: int,
                                      paths: seq<string>, us: seq<Update>)
    requires WellFormedApp(app) && Typed(app, c) && PathUpdates(app, access, file, env, c, mode, paths) == Ok(us)
    ensures AreUpdates(app, c, paths, us)
  {
    PathUpdatesAre(app, access, file, env, c, mode, paths, us);
    DisabledPathSegments(app);
    forall i | 0 <= i < |us| ensures IsUpdate(app, c, paths[i], us[i]) {
      PathUpdateIs(app, access, file, env, c, mode, paths[i], us[i]);
      assert HasType(c[Segments(paths[i])], app.fields[Segments(paths[i])].ty);
    }
  }

  lemma {:induction false} UpdatesAreOrderly(app: App, c: Config, paths: seq<string>, us: seq<Update>)
    requires WellFormedApp(app) && Typed(app, c) && AreUpdates(app, c, paths, us)
    ensures Orderly(us, DISABLED)
  {
    DisabledPathSegments(app);
    forall i | 0 <= i < |us|
      ensures Canonical(Segments(us[i].path)) && (us[i].createMissing ==> Segments(us[i].path) == DISABLED)
    {
      assert IsUpdate(app, c, paths[i], us[i]);
    }
    forall i, j | 0 <= i < |us| && 0 <= j < |us| ensures AlikeOrApart(us[i], us[j]) {
      assert IsUpdate(app, c, paths[i], us[i]) && IsUpdate(app, c, paths[j], us[j]);
      if Segments(us[i].path) != Segments(us[j].path) {
        FieldsApart(app, Segments(us[i].path), Segments(us[j].path));
      }
    }
  }

  lemma {:induction false} LeafKind(v: Leaf)
    requires !v.NilPtr? && !v.Other?
    ensures LeafNode(v).kind == if v.Strs? then Sequence else Scalar
  {
  }

  lemma {:induction false} SectionIsCanonical(app: App)
    requires WellFormedApp(app)
    ensures Canonical(["env_override"]) && Canonical(DISABLED)
  {
    assert CanonicalSegment(DISABLED[0]);
  }

  lemma {:induction false} ListIsMadeExactly(app: App, file: Node)
    requires WellFormedApp(app)
    ensures Makes(file, DISABLED) <==> CanMakeList(file)
  {
    var section := ["env_override"];
    SectionIsCanonical(app);
    FindIsLeads(file, section);
    assert section[1..] == [] && DISABLED[1..] == ["disabled_paths"];
    if file.kind == Mapping && MapIndex(file.content, "env_override", 0).Some? {
      var child := file.content[MapIndex(file.content, "env_override", 0).value];
      assert Find(child, section[1..]) == Some(child);
      assert Find(file, section) == Some(child);
    }
  }

  lemma {:induction false} LastIsNamed(app: App, c: Config, paths: seq<string>, us: seq<Update>, i: nat, key: Key)
    requires Typed(app, c) && AreUpdates(app, c, paths, us) && i <= |us|
    ensures LastFor(us[..i], key).Some? <==> Names(paths[..i], key)
    ensures LastFor(us[..i], key).Some? ==>
              (&& key in c && !c[key].NilPtr? && !c[key].Other?
               && Written(LastFor(us[..i], key).value) == LeafNode(c[key]))
  {
    var before := us[..i];
    if LastFor(before, key).Some? {
      var j :| 0 <= j < |before| && before[j] == LastFor(before, key).value;
      assert IsUpdate(app, c, paths[j], us[j]);
      assert paths[..i][j] == paths[j];
    }
    if Names(paths[..i], key) {
      var j :| 0 <= j < i && Segments(paths[..i][j]) == key;
      assert IsUpdate(app, c, paths[j], us[j]);
      assert before[j] in before;
    }
  }

  /** An update of the batch lands exactly if its path can be written. */
  lemma {:induction false} LandsExactly(app: App, file: Node, c: Config, mode: int, paths: seq<string>, us: seq<Update>,
                                        i: nat)
    requires WellFormedApp(app) && Typed(app, c) && AreUpdates(app, c, paths, us) && i < |us|
    ensures IsUpdate(app, c, paths[i], us[i])
    ensures Lands(file, us, i, mode == FORCE_FILE) <==>
            if Names(paths[..i], Segments(paths[i])) then IsFree(LeafNode(c[Segments(paths[i])]), mode == FORCE_FILE)
            else Fits(file, paths[i], c[Segments(paths[i])], mode == FORCE_FILE)
  {
    assert IsUpdate(app, c, paths[i], us[i]);
    var key := Segments(paths[i]);
    LastIsNamed(app, c, paths, us, i, key);
    FindIsLeads(file, key);
    LeafKind(c[key]);
    DisabledPathSegments(app);
    ListIsMadeExactly(app, file);
  }

  lemma {:induction false} BatchLands(app: App, file: Node, c: Config, mode: int, paths: seq<string>, us: seq<Update>)
    requires WellFormedApp(app) && Typed(app, c) && WellFormed(file) && AreUpdates(app, c, paths, us)
    ensures ApplyAll(file, us, mode == FORCE_FILE).Ok? <==> AllLand(file, us, mode == FORCE_FILE)
  {
    UpdatesAreOrderly(app, c, paths, us);
    BatchExactly(file, us, mode == FORCE_FILE, DISABLED);
  }

  lemma {:induction false} CanWriteExactly(app: App, access: Access, file: Node, env: Env, c: Config, mode: int,
                                           writes: seq<string>, us: seq<Update>, i: nat)
    requires WellFormedApp(app) && Typed(app, c) && IsAccessible(access, file) && AreUpdates(app, c, writes, us)
    requires i < |us| && PathUpdate(app, access, file, env, c, mode, writes[i]).Ok?
    ensures CanWrite(app, file, env, c, mode, writes, i) <==> Lands(file, us, i, mode == FORCE_FILE)
  {
    PathExactly(app, access, file, env, c, mode, writes[i]);
    LandsExactly(app, file, c, mode, writes, us, i);
  }

  lemma {:induction false} AllLandExactly(app: App, file: Node, env: Env, c: Config, mode: int, writes: seq<string>,
                                          us: seq<Update>)
    requires Typed(app, c) && |us| == |writes|
    requires forall i :: 0 <= i < |us| ==>
               (CanWrite(app, file, env, c, mode, writes, i) <==> Lands(file, us, i, mode == FORCE_FILE))
    ensures AllLand(file, us, mode == FORCE_FILE) <==>
            forall i :: 0 <= i < |writes| ==> CanWrite(app, file, env, c, mode, writes, i)
  {
    var overwrite := mode == FORCE_FILE;
    if AllLand(file, us, overwrite) {
      forall i | 0 <= i < |writes| ensures CanWrite(app, file, env, c, mode, writes, i) {
        assert Lands(file, us, i, overwrite);
      }
    }
    if forall i :: 0 <= i < |writes| ==> CanWrite(app, file, env, c, mode, writes, i) {
      forall i | 0 <= i < |us| ensures Lands(file, us, i, overwrite) {
        assert CanWrite(app, file, env, c, mode, writes, i);
      }
    }
  }

  lemma {:induction false} UpdatesLandExactly(app: App, access: Access, file: Node, env: Env, c: Config, mode: int,
                                              writes: seq<string>, us: seq<Update>)
    requires WellFormedApp(app) && Typed(app, c) && WellFormed(file) && IsAccessible(access, file)
    requires PathUpdates(app, access, file, env, c, mode, writes) == Ok(us)
    ensures ApplyAll(file, us, mode == FORCE_FILE).Ok? <==>
            forall i :: 0 <= i < |writes| ==> CanWrite(app, file, env, c, mode, writes, i)
  {
    UpdatesAre(app, access, file, env, c, mode, writes, us);
    BatchLands(app, file, c, mode, writes, us);
    PathUpdatesAre(app, access, file, env, c, mode, writes, us);
    forall i | 0 <= i < |us|
      ensures CanWrite(app, file, env, c, mode, writes, i) <==> Lands(file, us, i, mode == FORCE_FILE)
    {
      CanWriteExactly(app, access, file, env, c, mode, writes, us, i);
    }
    AllLandExactly(app, file, env, c, mode, writes, us);
  }

  lemma {:induction false} WritablesAreUpdates(app: App, access: Access, file: Node, env: Env, c: Config, mode: int,
                                           writes: seq<string>)
    requires Typed(app, c) && IsAccessible(access, file)
    requires forall i :: 0 <= i < |writes| ==> CanWrite(app, file, env, c, mode, writes, i)
    ensures PathUpdates(app, access, file, env, c, mode, writes).Ok?
  {
    PathsExactly(app, access, file, env, c, mode, writes);
    forall i | 0 <= i < |writes| ensures PathUpdate(app, access, file, env, c, mode, writes[i]).Ok? {
      assert CanWrite(app, file, env, c, mode, writes, i);
      PathExactly(app, access, file, env, c, mode, writes[i]);
    }
  }

  /** Writing back succeeds exactly if all paths can be written. */
  lemma {:induction false} WritingExactly(app: App, access: Access, file: Node, env: Env, c: Config, mode: int,
                                          writes: seq<string>)
    requires WellFormedApp(app) && Typed(app, c) && WellFormed(file)
    ensures Writing(app, access, file, env, c, mode, writes).Ok? <==>
            CanWriteAll(app, access, file, env, c, mode, writes)
  {
    if writes != [] && IsAccessible(access, file) {
      if PathUpdates(app, access, file, env, c, mode, writes).Ok? {
        UpdatesLandExactly(app, access, file, env, c, mode, writes,
                           PathUpdates(app, access, file, env, c, mode, writes).value);
      } else if forall i :: 0 <= i < |writes| ==> CanWrite(app, file, env, c, mode, writes, i) {
        WritablesAreUpdates(app, access, file, env, c, mode, writes);
      }
    }
  }

  // ---------------------------------------------------------------- the update

  lemma {:induction false} PlanParts(app: App, access: Access, file: Node, env: Env, edited: Config, opts: Options,
                                     draft: Draft)
    requires WellFormedApp(app) && Typed(app, edited) && Prepare(app, access, file, env, edited, opts) == Ok(draft)
    ensures Plan(app, access, file, env, edited, opts).Ok? <==>
            Validate(app, draft.config).Some? &&
            Writing(app, access, file, env, Validate(app, draft.config).value, opts.mode, WriteList(draft)).Ok?
    ensures Plan(app, access, file, env, edited, opts).Ok? ==>
              var o := Plan(app, access, file, env, edited, opts).value;
              Validate(app, draft.config) == Some(o.published) && (o.written.Some? <==> WriteList(draft) != [])
  {
  }

  /** An update succeeds exactly if the condition holds, in all three modes and beyond. What it publishes is the
      candidate as validation leaves it, and it writes the file exactly if there is a path to write. */
  lemma {:induction false} UpdateSucceedsExactly(app: App, access: Access, file: Node, env: Env, edited: Config,
                                                 opts: Options)
    requires WellFormedApp(app) && Typed(app, edited) && WellFormed(file) && Normalize(opts.paths) == opts.paths
    ensures Plan(app, access, file, env, edited, opts).Ok? <==> CanUpdate(app, access, file, env, edited, opts)
    ensures Plan(app, access, file, env, edited, opts).Ok? ==>
              var o := Plan(app, access, file, env, edited, opts).value;
              && Validate(app, Candidate(app, env, edited, opts)) == Some(o.published)
              && (o.written.Some? <==> Writes(app, env, Disabled(app, edited), opts) != [])
  {
    DraftExactly(app, access, file, env, edited, opts);
    if Prepare(app, access, file, env, edited, opts).Ok? {
      var draft := Prepare(app, access, file, env, edited, opts).value;
      DraftIs(app, access, file, env, edited, opts, draft);
      PlanParts(app, access, file, env, edited, opts, draft);
      if Validate(app, draft.config).Some? {
        WritingExactly(app, access, file, env, Validate(app, draft.config).value, opts.mode, WriteList(draft));
      }
    }
  }

  /** The condition on a state of the manager. */
  ghost predicate CanUpdateIn(app: App, s: State, edit: Config -> Config, opts: Options, access: Access)
    requires WellFormedApp(app) && (s.snapshot.Some? ==> Typed(app, edit(s.snapshot.value)))
  {
    && s.snapshot.Some?
    && CanUpdate(app, access, s.file, s.env, edit(s.snapshot.value), Options(Normalize(opts.paths), opts.mode))
  }

  /** The snapshot that an update publishes if it succeeds. */
  ghost function Accepted(app: App, s: State, edit: Config -> Config, opts: Options): Option<Config>
    requires WellFormedApp(app) && s.snapshot.Some? && Typed(app, edit(s.snapshot.value))
  {
    Validate(app, Candidate(app, s.env, edit(s.snapshot.value), Options(Normalize(opts.paths), opts.mode)))
  }

  /** Seen from a state: when an update succeeds, and the snapshot that it leaves. */
  lemma {:induction false} UpdateInSucceedsExactly(app: App, s: State, edit: Config -> Config, opts: Options,
                                                   access: Access)
    requires WellFormedApp(app) && (s.snapshot.Some? ==> Typed(app, edit(s.snapshot.value))) && WellFormed(s.file)
    ensures UpdateOutcome(app, s, edit, opts, access).Ok? <==> CanUpdateIn(app, s, edit, opts, access)
    ensures UpdateOutcome(app, s, edit, opts, access).Ok? ==>
              AfterUpdate(app, s, edit, opts, access).snapshot == Accepted(app, s, edit, opts)
  {
    if s.snapshot.Some? {
      NormalizeTwice(opts.paths);
      UpdateSucceedsExactly(app, access, s.file, s.env, edit(s.snapshot.value),
                            Options(Normalize(opts.paths), opts.mode));
    }
  }
}
