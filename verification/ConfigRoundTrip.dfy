/** The central law of the configuration engine: after a successful update, a reload gives back at every
    requested path what the update published. */
module ConfigRoundTrip {
  import opened Text
  import opened PathLists
  import opened Placeholders
  import opened YamlTree
  import opened YamlUpdates
  import opened ConfigFile
  import opened ConfigModel
  import opened ConfigReload
  import opened ConfigLaws

  /** The section validators leave a value as it is: it is in the form that validation gives. */
  ghost predicate Fixes(app: App, key: Key, v: Leaf)
    requires WellFormedApp(app) && key in app.fields
  {
    forall c {:trigger app.validate(c)} :: Typed(app, c) && c[key] == v && app.validate(c).Some? ==>
      app.validate(c).value[key] == v
  }

  /** Validation at a settled value. */
  lemma ValidateFixed(app: App, key: Key, raw: Config, c: Config)
    requires WellFormedApp(app) && key in app.fields && key != DISABLED
    requires Typed(app, raw) && Validate(app, raw) == Some(c) && Fixes(app, key, raw[key])
    ensures c[key] == raw[key]
  {
  }

  /** The consulted set of disabled paths after an update is the published list. */
  lemma ReloadDisabledSet(app: App, file: Node, env: Env, published: Config)
    requires WellFormedApp(app) && Typed(app, published) && PlainDisabled(file) && Synced(app, published, file)
    ensures FileLeaf(app, file, env, DISABLED).Some? && FileLeaf(app, file, env, DISABLED).value.Strs?
    ensures forall p :: p in DisabledSet(FileLeaf(app, file, env, DISABLED).value.ss) <==> p in Disabled(app, published)
  {
    PlainDisabledReads(app, file, env);
  }

  /** A key that was written, and that the environment does not reach, reloads as written. */
  lemma WrittenKeyReloads(app: App, file: Node, env: Env, published: Config, c: Config, key: Key)
    requires WellFormedApp(app) && Typed(app, published) && key in app.fields && key != DISABLED
    requires PlainDisabled(file) && Synced(app, published, file)
    requires !published[key].NilPtr? && !published[key].Other? && PlainLeaf(published[key])
    requires LoadLookup(file, key) == Some(LeafNode(published[key]))
    requires EnvValue(app, env, key) == None || PathText(key) in Disabled(app, published)
    requires Fixes(app, key, Canon(published[key])) && Rebuild(app, file, env) == Ok(c)
    ensures c[key] == Canon(published[key])
  {
    var raw := RebuildAt(app, file, env, c);
    WrittenLeafReadsBack(app, file, env, key, published[key]);
    UnvalidatedAt(app, file, env, raw, key);
    ReloadDisabledSet(app, file, env, published);
    ValidateFixed(app, key, raw, c);
  }

  /** A key that the environment owns, and that is not disabled, reloads from the environment. */
  lemma OwnedKeyReloads(app: App, file: Node, env: Env, published: Config, c: Config, key: Key, text: string, v: Leaf)
    requires WellFormedApp(app) && Typed(app, published) && key in app.fields && key != DISABLED
    requires PlainDisabled(file) && Synced(app, published, file)
    requires EnvValue(app, env, key) == Some(text) && FromEnv(app, app.fields[key].ty, text) == Some(v)
    requires PathText(key) !in Disabled(app, published)
    requires Fixes(app, key, v) && Rebuild(app, file, env) == Ok(c)
    ensures c[key] == v
  {
    var raw := RebuildAt(app, file, env, c);
    UnvalidatedAt(app, file, env, raw, key);
    ReloadDisabledSet(app, file, env, published);
    ValidateFixed(app, key, raw, c);
  }

  /** What a path taken from the environment left in the draft. */
  lemma {:induction false} TakenFromEnv(app: App, access: Access, file: Node, env: Env, disabled: set<string>,
                                        c: Config, paths: seq<string>, d: Config, taken: set<string>, p: string)
    requires WellFormedApp(app) && Typed(app, c) && p in taken
    requires TakeAllFromEnv(app, access, file, env, disabled, c, paths) == Ok((d, taken))
    ensures Segments(p) in app.fields && Segments(p) in d
    ensures EnvValue(app, env, Segments(p)).Some?
    ensures FromEnv(app, app.fields[Segments(p)].ty, EnvValue(app, env, Segments(p)).value) == Some(d[Segments(p)])
  {
    var n := |paths| - 1;
    var (d0, taken0) := TakeAllFromEnv(app, access, file, env, disabled, c, paths[..n]).value;
    if p in taken0 {
      TakenFromEnv(app, access, file, env, disabled, c, paths[..n], d0, taken0, p);
    }
  }

  lemma {:induction false} TookExactly(app: App, access: Access, file: Node, env: Env, disabled: set<string>, c: Config,
                                       path: string, d: Config, took: bool)
    requires Segments(path) in app.fields && TakeFromEnv(app, access, file, env, disabled, c, path) == Ok((d, took))
    ensures took <==> EnvValue(app, env, Segments(path)).Some?
  {
  }

  /** The last path of a list, after the others. */
  lemma {:induction false} TakeLast(app: App, access: Access, file: Node, env: Env, disabled: set<string>, c: Config,
                                    paths: seq<string>, d: Config, taken: set<string>)
    returns (d0: Config, taken0: set<string>, took: bool)
    requires paths != [] && TakeAllFromEnv(app, access, file, env, disabled, c, paths) == Ok((d, taken))
    ensures TakeAllFromEnv(app, access, file, env, disabled, c, paths[..|paths| - 1]) == Ok((d0, taken0))
    ensures TakeFromEnv(app, access, file, env, disabled, d0, paths[|paths| - 1]) == Ok((d, took))
    ensures taken == if took then taken0 + {paths[|paths| - 1]} else taken0
  {
    var all := TakeAllFromEnv(app, access, file, env, disabled, c, paths[..|paths| - 1]).value;
    d0, taken0 := all.0, all.1;
    took := TakeFromEnv(app, access, file, env, disabled, d0, paths[|paths| - 1]).value.1;
  }

  /** Runtime-env-only takes exactly the paths of fields that a variable owns. */
  lemma {:induction false} TakenExactly(app: App, access: Access, file: Node, env: Env, disabled: set<string>,
                                        c: Config, paths: seq<string>, d: Config, taken: set<string>, p: string)
    requires WellFormedApp(app) && Typed(app, c) && p in paths && Segments(p) in app.fields
    requires TakeAllFromEnv(app, access, file, env, disabled, c, paths) == Ok((d, taken))
    ensures p in taken <==> EnvValue(app, env, Segments(p)).Some?
  {
    var n := |paths| - 1;
    var d0, taken0, took := TakeLast(app, access, file, env, disabled, c, paths, d, taken);
    if p == paths[n] {
      TookExactly(app, access, file, env, disabled, d0, p, d, took);
    }
    if p in paths[..n] {
      TakenExactly(app, access, file, env, disabled, c, paths[..n], d0, taken0, p);
    } else {
      TakeAllKeepsDisabled(app, access, file, env, disabled, c, paths[..n], d0, taken0);
    }
  }

  /** A path that was taken is a requested path that a variable owns, and no other path is. */
  lemma {:induction false} TakenIsOwned(app: App, access: Access, file: Node, env: Env, disabled: set<string>,
                                        c: Config, paths: seq<string>, d: Config, taken: set<string>, i: nat)
    requires WellFormedApp(app) && Typed(app, c) && i < |paths|
    requires TakeAllFromEnv(app, access, file, env, disabled, c, paths) == Ok((d, taken))
    ensures paths[i] in taken <==> ActiveEnv(app, env, paths[i]).Some?
  {
    if Segments(paths[i]) in app.fields {
      TakenExactly(app, access, file, env, disabled, c, paths, d, taken, paths[i]);
    } else if paths[i] in taken {
      TakenFromEnv(app, access, file, env, disabled, c, paths, d, taken, paths[i]);
    }
  }

  /** The published value, and in runtime-env-only mode the environment's value, are in validated form. */
  ghost predicate Settled(app: App, env: Env, mode: int, key: Key, published: Config)
    requires WellFormedApp(app) && key in app.fields && Typed(app, published)
  {
    && Fixes(app, key, Canon(published[key]))
    && (mode == RUNTIME_ENV_ONLY ==>
          match EnvValue(app, env, key)
          case None => true
          case Some(text) =>
            match FromEnv(app, app.fields[key].ty, text)
            case None => true
            case Some(v) => Fixes(app, key, v))
  }

  /** The setting for the main law: a loaded manager in step with its file, and an update that succeeded. */
  ghost predicate Updated(app: App, access: Access, file: Node, env: Env, edited: Config, opts: Options,
                          outcome: Outcome) {
    && WellFormedApp(app) && Typed(app, edited)
    && WellFormed(file) && FitKeys(file, DISABLED) && PlainDisabled(file) && Synced(app, edited, file)
    && Normalize(opts.paths) == opts.paths
    && Plan(app, access, file, env, edited, opts) == Ok(outcome)
  }

  /** A requested path either was written or was taken from the environment. */
  lemma RequestedPathHandled(app: App, access: Access, file: Node, env: Env, edited: Config, opts: Options,
                             outcome: Outcome, p: string)
    requires Updated(app, access, file, env, edited, opts, outcome) && p in opts.paths
    ensures Segments(p) in app.fields
    ensures HandledByFile(app, file, env, opts, outcome, p) || HandledByEnv(app, env, opts, outcome, p)
  {
    var draft := PlanSplit(app, access, file, env, edited, opts, outcome);
    var key := Segments(p);
    if opts.mode == RUNTIME_ENV_ONLY {
      var taken := RuntimeEnvOnlyRemoves(app, access, file, env, edited, opts, draft);
      if p in taken {
        TakenPathHandled(app, access, file, env, edited, opts, outcome, draft, taken, p);
        return;
      }
    }
    assert p in draft.paths;
    WrittenPathHandled(app, access, file, env, edited, opts, outcome, draft, p);
  }

  ghost predicate HandledByFile(app: App, file: Node, env: Env, opts: Options, outcome: Outcome, p: string) {
    var key := Segments(p);
    && key in app.fields && key in outcome.published
    && !outcome.published[key].NilPtr? && !outcome.published[key].Other?
    && LoadLookup(FileAfter(outcome, file), key) == Some(LeafNode(outcome.published[key]))
    && (opts.mode != FORCE_FILE ==> EnvValue(app, env, key) == None)
    && (opts.mode == FORCE_FILE ==>
        DISABLED in outcome.published && outcome.published[DISABLED].Strs? && p in outcome.published[DISABLED].ss)
  }

  ghost predicate HandledByEnv(app: App, env: Env, opts: Options, outcome: Outcome, p: string) {
    var key := Segments(p);
    && opts.mode == RUNTIME_ENV_ONLY && key in app.fields && key != DISABLED && key in outcome.published
    && EnvValue(app, env, key).Some?
    && FromEnv(app, app.fields[key].ty, EnvValue(app, env, key).value).Some?
    && (WellFormedApp(app) && Fixes(app, key, FromEnv(app, app.fields[key].ty, EnvValue(app, env, key).value).value) ==>
          outcome.published[key] == FromEnv(app, app.fields[key].ty, EnvValue(app, env, key).value).value)
    && DISABLED in outcome.published && outcome.published[DISABLED].Strs? && p !in outcome.published[DISABLED].ss
  }

  lemma WrittenPathHandled(app: App, access: Access, file: Node, env: Env, edited: Config, opts: Options,
                           outcome: Outcome, draft: Draft, p: string)
    requires Updated(app, access, file, env, edited, opts, outcome) && p in opts.paths
    requires Prepare(app, access, file, env, edited, opts) == Ok(draft) && p in draft.paths
    ensures HandledByFile(app, file, env, opts, outcome, p)
  {
    var draft' := PlanSplit(app, access, file, env, edited, opts, outcome);
    var us, ps :=
      PersistApplies(app, access, file, env, outcome.published, opts.mode, WriteList(draft), outcome.written.value);
    var i :| 0 <= i < |draft.paths| && draft.paths[i] == p;
    assert WriteList(draft)[i] == p;
    PlanStores(app, access, file, env, edited, opts, outcome, draft, Segments(p));
    PrepareDisabled(app, access, file, env, edited, opts, draft);
  }

  lemma TakenPathHandled(app: App, access: Access, file: Node, env: Env, edited: Config, opts: Options,
                         outcome: Outcome, draft: Draft, taken: set<string>, p: string)
    requires Updated(app, access, file, env, edited, opts, outcome) && p in taken && opts.paths != []
    requires opts.mode == RUNTIME_ENV_ONLY && Prepare(app, access, file, env, edited, opts) == Ok(draft)
    requires TakeAllFromEnv(app, access, file, env, DisabledSet(Disabled(app, edited)), edited, opts.paths).Ok?
    requires taken ==
             TakeAllFromEnv(app, access, file, env, DisabledSet(Disabled(app, edited)), edited, opts.paths).value.1
    ensures HandledByEnv(app, env, opts, outcome, p)
  {
    var draft' := PlanSplit(app, access, file, env, edited, opts, outcome);
    var taken' := RuntimeEnvOnlyRemoves(app, access, file, env, edited, opts, draft);
    var d := TakeAllFromEnv(app, access, file, env, DisabledSet(Disabled(app, edited)), edited, opts.paths).value.0;
    TakenFromEnv(app, access, file, env, DisabledSet(Disabled(app, edited)), edited, opts.paths, d, taken, p);
    assert EnvTag(app, DISABLED) == None;
    assert draft.config[Segments(p)] == d[Segments(p)];
  }

  /** The list works by the text of paths, so the plain text of the field's path decides: in force-file mode it must
      be listed or requested, and in runtime-env-only mode, for a field that a variable owns, it must not be listed
      or else be requested. */
  predicate TextReaches(app: App, env: Env, edited: Config, opts: Options, key: Key)
    requires Typed(app, edited) && DISABLED in app.fields && app.fields[DISABLED].ty == StringsType && key in app.fields
  {
    && (opts.mode == FORCE_FILE ==> PathText(key) in opts.paths || PathText(key) in Disabled(app, edited))
    && (opts.mode == RUNTIME_ENV_ONLY && EnvValue(app, env, key).Some? ==>
          PathText(key) in opts.paths || PathText(key) !in Disabled(app, edited))
  }

  /** The published list, by what the caller knows before the call. */
  lemma {:induction false} ForceFileLists(app: App, access: Access, file: Node, env: Env, edited: Config, opts: Options,
                                          outcome: Outcome, x: string)
    requires Updated(app, access, file, env, edited, opts, outcome) && opts.mode == FORCE_FILE && opts.paths != []
    ensures x in Disabled(app, outcome.published) <==> x in opts.paths || x in Disabled(app, edited)
  {
    var draft := PlanSplit(app, access, file, env, edited, opts, outcome);
    ForceFileAdds(app, access, file, env, edited, opts, draft);
    NormalizeTwice(FileDisabled(file));
    MergeMember(Normalize(Disabled(app, edited)), Normalize(opts.paths), x);
  }

  lemma {:induction false} RuntimeLists(app: App, access: Access, file: Node, env: Env, edited: Config, opts: Options,
                                        outcome: Outcome, key: Key)
    requires Updated(app, access, file, env, edited, opts, outcome) && opts.mode == RUNTIME_ENV_ONLY && opts.paths != []
    requires key in app.fields && EnvValue(app, env, key).Some?
    ensures PathText(key) in Disabled(app, outcome.published) <==>
            PathText(key) in Disabled(app, edited) && PathText(key) !in opts.paths
  {
    var draft := PlanSplit(app, access, file, env, edited, opts, outcome);
    var taken := RuntimeEnvOnlyRemoves(app, access, file, env, edited, opts, draft);
    var d := TakeAllFromEnv(app, access, file, env, DisabledSet(Disabled(app, edited)), edited, opts.paths).value.0;
    NormalizeTwice(FileDisabled(file));
    SegmentsOfPathText(key);
    if PathText(key) in opts.paths {
      TakenExactly(app, access, file, env, DisabledSet(Disabled(app, edited)), edited, opts.paths, d, taken,
                   PathText(key));
    }
  }

  lemma FileHandledReloads(app: App, access: Access, file: Node, env: Env, edited: Config, opts: Options,
                           outcome: Outcome, p: string, env': Env, c: Config)
    requires Updated(app, access, file, env, edited, opts, outcome) && p in opts.paths && Segments(p) in app.fields
    requires Segments(p) != DISABLED && HandledByFile(app, file, env, opts, outcome, p)
    requires TextReaches(app, env, edited, opts, Segments(p)) && (opts.mode != FORCE_FILE ==> env' == env)
    requires PlainLeaf(outcome.published[Segments(p)]) && Fixes(app, Segments(p), Canon(outcome.published[Segments(p)]))
    requires Rebuild(app, FileAfter(outcome, file), env') == Ok(c)
    ensures c[Segments(p)] == Canon(outcome.published[Segments(p)])
  {
    var key := Segments(p);
    PlanKeepsSync(app, access, file, env, edited, opts, outcome);
    if opts.mode == FORCE_FILE {
      ForceFileLists(app, access, file, env, edited, opts, outcome, PathText(key));
    }
    WrittenKeyReloads(app, FileAfter(outcome, file), env', outcome.published, c, key);
  }

  lemma EnvHandledReloads(app: App, access: Access, file: Node, env: Env, edited: Config, opts: Options,
                          outcome: Outcome, p: string, c: Config)
    requires Updated(app, access, file, env, edited, opts, outcome) && p in opts.paths && Segments(p) in app.fields
    requires HandledByEnv(app, env, opts, outcome, p) && TextReaches(app, env, edited, opts, Segments(p))
    requires Settled(app, env, opts.mode, Segments(p), outcome.published)
    requires Rebuild(app, FileAfter(outcome, file), env) == Ok(c)
    ensures c[Segments(p)] == outcome.published[Segments(p)]
  {
    var key := Segments(p);
    PlanKeepsSync(app, access, file, env, edited, opts, outcome);
    RuntimeLists(app, access, file, env, edited, opts, outcome, key);
    var text := EnvValue(app, env, key).value;
    OwnedKeyReloads(app, FileAfter(outcome, file), env, outcome.published, c, key, text,
                    FromEnv(app, app.fields[key].ty, text).value);
  }

  lemma ListReloads(app: App, access: Access, file: Node, env: Env, edited: Config, opts: Options, outcome: Outcome,
                    env': Env, c: Config)
    requires Updated(app, access, file, env, edited, opts, outcome) &&
             Rebuild(app, FileAfter(outcome, file), env') == Ok(c)
    ensures c[DISABLED] == outcome.published[DISABLED]
  {
    PlanKeepsSync(app, access, file, env, edited, opts, outcome);
    RebuildSyncs(app, FileAfter(outcome, file), env', c);
  }

  /** After a successful update in any mode, a reload gives back at every requested path the published value,
      string lists up to trimming and repeats. After a force-file update the reload may even run in another
      environment. A path may be spelled with padding, as long as the plain text reaches the list. */
  lemma UpdateThenReload(app: App, access: Access, file: Node, env: Env, edited: Config, opts: Options,
                         outcome: Outcome, p: string, env': Env, c: Config)
    requires Updated(app, access, file, env, edited, opts, outcome)
    requires p in opts.paths && Segments(p) in app.fields && TextReaches(app, env, edited, opts, Segments(p))
    requires opts.mode != FORCE_FILE ==> env' == env
    requires PlainLeaf(outcome.published[Segments(p)]) && Settled(app, env, opts.mode, Segments(p), outcome.published)
    requires Rebuild(app, FileAfter(outcome, file), env') == Ok(c)
    ensures Canon(c[Segments(p)]) == Canon(outcome.published[Segments(p)])
    ensures !c[Segments(p)].Strs? ==> c[Segments(p)] == outcome.published[Segments(p)]
  {
    CanonTwice(outcome.published[Segments(p)]);
    if Segments(p) == DISABLED {
      ListReloads(app, access, file, env, edited, opts, outcome, env', c);
    } else {
      RequestedPathHandled(app, access, file, env, edited, opts, outcome, p);
      if HandledByFile(app, file, env, opts, outcome, p) {
        FileHandledReloads(app, access, file, env, edited, opts, outcome, p, env', c);
      } else {
        EnvHandledReloads(app, access, file, env, edited, opts, outcome, p, c);
      }
    }
  }

  lemma CanonTwice(v: Leaf)
    ensures Canon(Canon(v)) == Canon(v)
  {
    if v.Strs? {
      NormalizeTwice(v.ss);
    }
  }

  /** In force-file mode, against a variable that holds another value, the condition on the path's text is exact. */
  lemma ForceFileSurvivesExactlyByPathText(app: App, access: Access, file: Node, env: Env, edited: Config,
                                           opts: Options, outcome: Outcome, p: string, env': Env, c: Config, v: Leaf)
    requires Updated(app, access, file, env, edited, opts, outcome) && opts.mode == FORCE_FILE
    requires p in opts.paths && Segments(p) in app.fields && Segments(p) != DISABLED
    requires EnvValue(app, env', Segments(p)).Some?
    requires FromEnv(app, app.fields[Segments(p)].ty, EnvValue(app, env', Segments(p)).value) == Some(v)
    requires v != Canon(outcome.published[Segments(p)]) && Fixes(app, Segments(p), v)
    requires PlainLeaf(outcome.published[Segments(p)]) && Fixes(app, Segments(p), Canon(outcome.published[Segments(p)]))
    requires Rebuild(app, FileAfter(outcome, file), env') == Ok(c)
    ensures c[Segments(p)] == Canon(outcome.published[Segments(p)]) <==>
            PathText(Segments(p)) in opts.paths || PathText(Segments(p)) in Disabled(app, edited)
  {
    var key := Segments(p);
    var file' := FileAfter(outcome, file);
    PlanKeepsSync(app, access, file, env, edited, opts, outcome);
    RequestedPathHandled(app, access, file, env, edited, opts, outcome, p);
    ForceFileLists(app, access, file, env, edited, opts, outcome, PathText(key));
    if PathText(key) in Disabled(app, outcome.published) {
      WrittenKeyReloads(app, file', env', outcome.published, c, key);
    } else {
      OwnedKeyReloads(app, file', env', outcome.published, c, key, EnvValue(app, env', key).value, v);
    }
  }

  /** A key whose path is disabled reloads from the file, whatever its variable holds. */
  lemma DisabledKeyReloads(app: App, file: Node, env: Env, published: Config, c: Config, key: Key, w: Leaf)
    requires WellFormedApp(app) && Typed(app, published) && key in app.fields && key != DISABLED
    requires PlainDisabled(file) && Synced(app, published, file) && PathText(key) in Disabled(app, published)
    requires FileLeaf(app, file, env, key) == Some(w) && Fixes(app, key, w) && Rebuild(app, file, env) == Ok(c)
    ensures c[key] == w
  {
    var raw := RebuildAt(app, file, env, c);
    UnvalidatedAt(app, file, env, raw, key);
    ReloadDisabledSet(app, file, env, published);
    ValidateFixed(app, key, raw, c);
  }

  /** In runtime-env-only mode, for a field that a variable owns and for which the file says something else, the
      condition is exact as well: a path that is spelled with padding does not lift the plain entry of the list. */
  lemma RuntimeEnvOnlyReloadsExactlyByPathText(app: App, access: Access, file: Node, env: Env, edited: Config,
                                               opts: Options, outcome: Outcome, p: string, c: Config, v: Leaf, w: Leaf)
    requires Updated(app, access, file, env, edited, opts, outcome) && opts.mode == RUNTIME_ENV_ONLY
    requires p in opts.paths && Segments(p) in app.fields && Segments(p) != DISABLED
    requires EnvValue(app, env, Segments(p)).Some?
    requires FromEnv(app, app.fields[Segments(p)].ty, EnvValue(app, env, Segments(p)).value) == Some(v)
    requires FileLeaf(app, FileAfter(outcome, file), env, Segments(p)) == Some(w)
    requires v != w && Fixes(app, Segments(p), v) && Fixes(app, Segments(p), w)
    requires Rebuild(app, FileAfter(outcome, file), env) == Ok(c)
    ensures outcome.published[Segments(p)] == v
    ensures c[Segments(p)] == outcome.published[Segments(p)] <==>
            PathText(Segments(p)) in opts.paths || PathText(Segments(p)) !in Disabled(app, edited)
  {
    var key := Segments(p);
    var file' := FileAfter(outcome, file);
    PlanKeepsSync(app, access, file, env, edited, opts, outcome);
    RequestedPathHandled(app, access, file, env, edited, opts, outcome, p);
    RuntimeLists(app, access, file, env, edited, opts, outcome, key);
    if PathText(key) in Disabled(app, outcome.published) {
      DisabledKeyReloads(app, file', env, outcome.published, c, key, w);
    } else {
      OwnedKeyReloads(app, file', env, outcome.published, c, key, EnvValue(app, env, key).value, v);
    }
  }
}
