/** Runs of the configuration manager: loads, updates, reloads, outside edits and changes of environment in
    any order. */
module ConfigRuns {
  import opened Text
  import opened PathLists
  import opened Placeholders
  import opened YamlTree
  import opened ConfigFile
  import opened ConfigModel
  import opened ConfigReload
  import opened ConfigLaws
  import opened ConfigLayers
  import opened ConfigRoundTrip

  /** What the manager does that others can see. */
  datatype Event =
    | Wrote(tree: Node)
    | Published(config: Config)
    | Called(hook: nat, before: Option<Config>, after: Config)

  /** The manager with its loader's layer, its file and the process environment. `stale` records that the list in
      memory need not be the file's: the file was edited from outside and no reload has accepted it since, or a
      repeated load kept an older list. */
  datatype State = State(
    snapshot: Option<Config>,
    layer: Option<Node>,
    file: Node,
    env: Env,
    hooks: seq<nat>,
    trace: seq<Event>,
    stale: bool)

  datatype Step =
    | Load
    | Update(edit: Config -> Config, opts: Options, access: Access)
    | FileChanged
    | OutsideEdit(file: Node)
    | SetEnv(env: Env)
    | RegisterHook(hook: nat)

  /** The hooks, each called once with the old and the new snapshot, in registration order. */
  function HookCalls(hooks: seq<nat>, before: Option<Config>, after: Config): (r: seq<Event>)
    ensures |r| == |hooks| && forall i :: 0 <= i < |r| ==> r[i] == Called(hooks[i], before, after)
  {
    seq(|hooks|, i requires 0 <= i < |hooks| => Called(hooks[i], before, after))
  }

  /** The list among the settings is not the file's. */
  predicate ListsDiffer(settings: Node, file: Node) {
    Normalize(FileDisabled(settings)) != Normalize(FileDisabled(file))
  }

  /** What a load leaves: the layer in any case, the snapshot if all went well. */
  function LoadedWith(s: State, settings: Node, settled: Result<Config, LoadError>): State {
    var layered := s.(layer := Some(LayerAfter(settings, s.env)));
    match settled
    case Err(_) => layered
    case Ok(c) =>
      layered.(snapshot := Some(c), trace := s.trace + [Published(c)], stale := ListsDiffer(settings, s.file))
  }

  /** Load: a file that cannot be read changes nothing. */
  function AfterLoad(app: App, s: State): State
    requires WellFormedApp(app)
  {
    var settings := Settings(s.layer, s.file);
    if !CanRead(s.file) then s else LoadedWith(s, settings, Settle(app, settings, s.env))
  }

  /** A rebuilt snapshot equal to the current one is not published again. */
  function ReloadedWith(s: State, rebuilt: Result<Config, LoadError>): State {
    match rebuilt
    case Err(_) => s
    case Ok(c) =>
      if s.snapshot == Some(c) then s.(stale := false)
      else
        s.(snapshot := Some(c),
           trace := s.trace + [Published(c)] + HookCalls(s.hooks, s.snapshot, c),
           stale := false)
  }

  /** handleConfigChange. */
  function AfterFileChanged(app: App, s: State): State
    requires WellFormedApp(app)
  {
    ReloadedWith(s, Rebuild(app, s.file, s.env))
  }

  /** The outcome that Update works out, or the error that it returns. */
  function UpdateOutcome(app: App, s: State, edit: Config -> Config, opts: Options, access: Access)
    : Result<Outcome, UpdateError>
    requires WellFormedApp(app) && (s.snapshot.Some? ==> Typed(app, edit(s.snapshot.value)))
  {
    match s.snapshot
    case None => Err(NotLoaded)
    case Some(current) => Plan(app, access, s.file, s.env, edit(current), Options(Normalize(opts.paths), opts.mode))
  }

  function WriteEvents(written: Option<Node>): seq<Event> {
    match written
    case None => []
    case Some(tree) => [Wrote(tree)]
  }

  /** The file is written if need be, then the snapshot is published, then the hooks are called. */
  function UpdatedWith(s: State, o: Outcome): State {
    s.(snapshot := Some(o.published),
       file := FileAfter(o, s.file),
       trace := s.trace + WriteEvents(o.written) + [Published(o.published)] +
         HookCalls(s.hooks, s.snapshot, o.published))
  }

  function AfterUpdate(app: App, s: State, edit: Config -> Config, opts: Options, access: Access): State
    requires WellFormedApp(app) && (s.snapshot.Some? ==> Typed(app, edit(s.snapshot.value)))
  {
    match UpdateOutcome(app, s, edit, opts, access)
    case Err(_) => s
    case Ok(o) => UpdatedWith(s, o)
  }

  /** A file with the keys and the disabled_paths that the laws are about. */
  ghost predicate GoodFile(file: Node) {
    WellFormed(file) && FitKeys(file, DISABLED) && PlainDisabled(file)
  }

  /** Update functions keep the types and leave env_override alone; outside edits leave a good file. */
  ghost predicate Allowed(app: App, step: Step)
    requires WellFormedApp(app)
  {
    match step
    case Update(edit, _, _) =>
      forall c {:trigger edit(c)} :: Typed(app, c) ==> Typed(app, edit(c)) && edit(c)[DISABLED] == c[DISABLED]
    case OutsideEdit(file) => GoodFile(file)
    case _ => true
  }

  ghost function Next(app: App, s: State, step: Step): State
    requires WellFormedApp(app) && Allowed(app, step) && (s.snapshot.Some? ==> Typed(app, s.snapshot.value))
  {
    match step
    case Load => AfterLoad(app, s)
    case Update(edit, opts, access) => AfterUpdate(app, s, edit, opts, access)
    case FileChanged => AfterFileChanged(app, s)
    case OutsideEdit(file) => s.(file := file, stale := true)
    case SetEnv(env) => s.(env := env)
    case RegisterHook(hook) => s.(hooks := s.hooks + [hook])
  }

  // ---------------------------------------------------------------- what every run keeps

  /** The snapshot came out of validation. */
  ghost predicate Validated(app: App, c: Config)
    requires WellFormedApp(app)
  {
    Typed(app, c) && exists raw :: Typed(app, raw) && Validate(app, raw) == Some(c)
  }

  /** A snapshot as every run leaves it: validated, with a disabled list that has no blanks and no repeats,
      and in step with the file unless an outside edit is pending. */
  ghost predicate SnapshotOk(app: App, c: Config, file: Node, stale: bool)
    requires WellFormedApp(app)
  {
    && Validated(app, c)
    && Clean(Disabled(app, c))
    && PlainInMemory(app, c)
    && (!stale ==> Synced(app, c, file))
  }

  /** Everything that was ever published passed validation. */
  ghost predicate TraceOk(app: App, trace: seq<Event>)
    requires WellFormedApp(app)
  {
    forall i :: 0 <= i < |trace| && trace[i].Published? ==> Validated(app, trace[i].config)
  }

  ghost predicate Invariant(app: App, s: State)
    requires WellFormedApp(app)
  {
    && GoodFile(s.file) && LayerOk(s.layer)
    && (s.snapshot.Some? ==> SnapshotOk(app, s.snapshot.value, s.file, s.stale))
    && TraceOk(app, s.trace)
  }

  lemma ValidatedIsClean(app: App, raw: Config, c: Config)
    requires WellFormedApp(app) && Typed(app, raw) && Validate(app, raw) == Some(c)
    ensures Validated(app, c) && Clean(Disabled(app, c))
  {
    NormalizeClean(Disabled(app, raw));
  }

  lemma RebuildKeeps(app: App, file: Node, env: Env, c: Config, stale: bool)
    requires WellFormedApp(app) && GoodFile(file) && Rebuild(app, file, env) == Ok(c)
    ensures SnapshotOk(app, c, file, stale)
  {
    var raw := RebuildAt(app, file, env, c);
    ValidatedIsClean(app, raw, c);
    RebuildSyncs(app, file, env, c);
    SyncedIsPlain(app, c, file);
  }

  lemma PlanKeeps(app: App, access: Access, file: Node, env: Env, edited: Config, opts: Options, o: Outcome,
                  stale: bool)
    requires WellFormedApp(app) && Typed(app, edited) && GoodFile(file) && Normalize(opts.paths) == opts.paths
    requires PlainInMemory(app, edited) && (!stale ==> Synced(app, edited, file))
    requires Plan(app, access, file, env, edited, opts) == Ok(o)
    ensures GoodFile(FileAfter(o, file)) && SnapshotOk(app, o.published, FileAfter(o, file), stale)
  {
    var draft := PlanSplit(app, access, file, env, edited, opts, o);
    ValidatedIsClean(app, draft.config, o.published);
    PlanKeepsPlain(app, access, file, env, edited, opts, o);
    PlanStores(app, access, file, env, edited, opts, o, draft, DISABLED);
    if !stale {
      PlanKeepsSync(app, access, file, env, edited, opts, o);
    }
  }

  lemma TraceConcat(app: App, a: seq<Event>, b: seq<Event>)
    requires WellFormedApp(app) && TraceOk(app, a) && TraceOk(app, b)
    ensures TraceOk(app, a + b)
  {
  }

  /** A trace stays fit when one validated snapshot is published and hooks are called. */
  lemma TraceKeeps(app: App, trace: seq<Event>, written: Option<Node>, c: Config, hooks: seq<nat>,
                   before: Option<Config>)
    requires WellFormedApp(app) && TraceOk(app, trace) && Validated(app, c)
    ensures TraceOk(app, trace + [Published(c)])
    ensures TraceOk(app, trace + [Published(c)] + HookCalls(hooks, before, c))
    ensures TraceOk(app, trace + WriteEvents(written) + [Published(c)] + HookCalls(hooks, before, c))
  {
    TraceConcat(app, trace, [Published(c)]);
    TraceConcat(app, trace + [Published(c)], HookCalls(hooks, before, c));
    TraceConcat(app, trace, WriteEvents(written));
    TraceConcat(app, trace + WriteEvents(written), [Published(c)]);
    TraceConcat(app, trace + WriteEvents(written) + [Published(c)], HookCalls(hooks, before, c));
  }

  lemma UpdateKeeps(app: App, s: State, edit: Config -> Config, opts: Options, access: Access)
    requires WellFormedApp(app) && Invariant(app, s) && Allowed(app, Step.Update(edit, opts, access))
    requires s.snapshot.Some? ==> Typed(app, edit(s.snapshot.value))
    ensures Invariant(app, AfterUpdate(app, s, edit, opts, access))
  {
    var r := UpdateOutcome(app, s, edit, opts, access);
    if r.Ok? {
      NormalizeTwice(opts.paths);
      var o := r.value;
      PlanKeeps(app, access, s.file, s.env, edit(s.snapshot.value), Options(Normalize(opts.paths), opts.mode), o,
                s.stale);
      TraceKeeps(app, s.trace, o.written, o.published, s.hooks, s.snapshot);
    }
  }

  lemma SettledKeeps(app: App, settings: Node, env: Env, c: Config, file: Node)
    requires WellFormedApp(app) && PlainDisabled(settings) && Settle(app, settings, env) == Ok(c)
    ensures SnapshotOk(app, c, file, ListsDiffer(settings, file))
  {
    var raw := RebuildAt(app, settings, env, c);
    ValidatedIsClean(app, raw, c);
    RebuildSyncs(app, settings, env, c);
    SyncedIsPlain(app, c, settings);
  }

  lemma LoadKeeps(app: App, s: State)
    requires WellFormedApp(app) && Invariant(app, s)
    ensures Invariant(app, AfterLoad(app, s))
  {
    var settings := Settings(s.layer, s.file);
    SettingsList(s.layer, s.file);
    if s.layer.Some? {
      OverlayWellFormed(s.layer.value, s.file);
    }
    LayerKeepsList(app, settings, s.env);
    if Settle(app, settings, s.env).Ok? {
      var c := Settle(app, settings, s.env).value;
      SettledKeeps(app, settings, s.env, c, s.file);
      TraceKeeps(app, s.trace, None, c, [], None);
    }
  }

  lemma FileChangedKeeps(app: App, s: State)
    requires WellFormedApp(app) && Invariant(app, s)
    ensures Invariant(app, AfterFileChanged(app, s))
  {
    if Rebuild(app, s.file, s.env).Ok? {
      var c := Rebuild(app, s.file, s.env).value;
      RebuildKeeps(app, s.file, s.env, c, false);
      TraceKeeps(app, s.trace, None, c, s.hooks, s.snapshot);
    }
  }

  lemma NextKeeps(app: App, s: State, step: Step)
    requires WellFormedApp(app) && Allowed(app, step) && Invariant(app, s)
    ensures Invariant(app, Next(app, s, step))
  {
    match step
    case Load => LoadKeeps(app, s);
    case FileChanged => FileChangedKeeps(app, s);
    case Update(edit, opts, access) => UpdateKeeps(app, s, edit, opts, access);
    case OutsideEdit(_) =>
    case SetEnv(_) =>
    case RegisterHook(_) =>
  }

  /** A manager that has loaded nothing yet, beside its file. */
  function Start(file: Node, env: Env): State {
    State(None, None, file, env, [], [], true)
  }

  /** A run, as the states it goes through. */
  ghost predicate IsRun(app: App, states: seq<State>, steps: seq<Step>)
    requires WellFormedApp(app)
  {
    && |states| == |steps| + 1
    && states[0] == Start(states[0].file, states[0].env) && GoodFile(states[0].file)
    && (forall i :: 0 <= i < |steps| ==> Allowed(app, steps[i]))
    && (forall i {:trigger steps[i]} :: 0 <= i < |steps| ==>
          && (states[i].snapshot.Some? ==> Typed(app, states[i].snapshot.value))
          && states[i + 1] == Next(app, states[i], steps[i]))
  }

  /** In every state of every run: the snapshot and everything ever published passed validation, the
      in-memory disabled_paths has no blanks and no repeats, and it is the file's list in normal form
      whenever no outside edit is pending and no repeated load has kept an older list. */
  lemma {:induction false} EveryRunKeepsInvariant(app: App, states: seq<State>, steps: seq<Step>, k: nat)
    requires WellFormedApp(app) && IsRun(app, states, steps) && k < |states|
    ensures Invariant(app, states[k])
  {
    if k > 0 {
      EveryRunKeepsInvariant(app, states, steps, k - 1);
      assert states[k - 1 + 1] == Next(app, states[k - 1], steps[k - 1]);
      NextKeeps(app, states[k - 1], steps[k - 1]);
    }
  }

  // ---------------------------------------------------------------- the central law, on runs

  /** What the central law asks of an update step in a state of a run. */
  ghost predicate LawApplies(app: App, s: State, edit: Config -> Config, opts: Options, o: Outcome, p: string)
    requires WellFormedApp(app) && s.snapshot.Some? && Typed(app, edit(s.snapshot.value))
  {
    var asked := Options(Normalize(opts.paths), opts.mode);
    var edited := edit(s.snapshot.value);
    && !s.stale && p in asked.paths && Segments(p) in app.fields && TextReaches(app, s.env, edited, asked, Segments(p))
    && Typed(app, o.published) && PlainLeaf(o.published[Segments(p)])
    && Settled(app, s.env, opts.mode, Segments(p), o.published)
  }

  lemma FileChangeSnapshot(app: App, s: State)
    requires WellFormedApp(app)
    ensures AfterFileChanged(app, s).snapshot ==
            match Rebuild(app, s.file, s.env) case Err(_) => s.snapshot case Ok(c) => Some(c)
  {
  }

  lemma StepIsUpdate(app: App, s: State, edit: Config -> Config, opts: Options, access: Access, o: Outcome)
    requires WellFormedApp(app) && Invariant(app, s) && Allowed(app, Step.Update(edit, opts, access)) && !s.stale
    requires s.snapshot.Some? && Typed(app, edit(s.snapshot.value)) &&
             UpdateOutcome(app, s, edit, opts, access) == Ok(o)
    ensures Updated(app, access, s.file, s.env, edit(s.snapshot.value), Options(Normalize(opts.paths), opts.mode), o)
  {
    NormalizeTwice(opts.paths);
  }

  /** In any run: after an update that succeeded and the file change that it causes, the snapshot has at every
      requested path what the update published, whether the reload was accepted or not. After a force-file update
      the environment may have changed before the file change is handled. */
  lemma UpdateThenFileChange(app: App, s: State, edit: Config -> Config, opts: Options, access: Access, o: Outcome,
                             p: string, changed: State)
    requires WellFormedApp(app) && Invariant(app, s) && Allowed(app, Step.Update(edit, opts, access))
    requires s.snapshot.Some? && Typed(app, edit(s.snapshot.value))
    requires UpdateOutcome(app, s, edit, opts, access) == Ok(o) && LawApplies(app, s, edit, opts, o, p)
    requires changed.snapshot == Some(o.published) && changed.file == FileAfter(o, s.file)
    requires opts.mode != FORCE_FILE ==> changed.env == s.env
    ensures var after := AfterFileChanged(app, changed);
            && after.snapshot.Some? && Segments(p) in after.snapshot.value
            && Canon(after.snapshot.value[Segments(p)]) == Canon(o.published[Segments(p)])
  {
    StepIsUpdate(app, s, edit, opts, access, o);
    FileChangeSnapshot(app, changed);
    var rebuilt := Rebuild(app, changed.file, changed.env);
    if rebuilt.Ok? {
      UpdateThenReload(app, access, s.file, s.env, edit(s.snapshot.value), Options(Normalize(opts.paths), opts.mode),
                       o, p, changed.env, rebuilt.value);
    }
  }

  /** The same as steps of a run: an update, a change of environment, and the file change. */
  lemma CentralLawOnRuns(app: App, states: seq<State>, steps: seq<Step>, k: nat, o: Outcome, p: string)
    requires WellFormedApp(app) && IsRun(app, states, steps) && k + 2 < |steps|
    requires steps[k].Update? && steps[k + 1].SetEnv? && steps[k + 2].FileChanged?
    requires states[k].snapshot.Some? && Typed(app, steps[k].edit(states[k].snapshot.value))
    requires UpdateOutcome(app, states[k], steps[k].edit, steps[k].opts, steps[k].access) == Ok(o)
    requires LawApplies(app, states[k], steps[k].edit, steps[k].opts, o, p)
    requires steps[k].opts.mode != FORCE_FILE ==> steps[k + 1].env == states[k].env
    ensures states[k + 3].snapshot.Some? && Segments(p) in states[k + 3].snapshot.value
    ensures Canon(states[k + 3].snapshot.value[Segments(p)]) == Canon(o.published[Segments(p)])
  {
    EveryRunKeepsInvariant(app, states, steps, k);
    assert Allowed(app, steps[k]);
    assert states[k + 1] == Next(app, states[k], steps[k]);
    assert states[k + 1 + 1] == Next(app, states[k + 1], steps[k + 1]);
    assert states[k + 2 + 1] == Next(app, states[k + 2], steps[k + 2]);
    assert states[k + 1] == UpdatedWith(states[k], o);
    UpdateThenFileChange(app, states[k], steps[k].edit, steps[k].opts, steps[k].access, o, p, states[k + 2]);
  }

  // ---------------------------------------------------------------- lists that part and meet again

  /** A file change that is accepted brings the lists together. */
  lemma AcceptedReloadResyncs(app: App, s: State)
    requires WellFormedApp(app) && Invariant(app, s) && Rebuild(app, s.file, s.env).Ok?
    ensures var after := AfterFileChanged(app, s);
            && !after.stale && after.snapshot.Some? && Typed(app, after.snapshot.value)
            && Synced(app, after.snapshot.value, s.file)
  {
    FileChangedKeeps(app, s);
  }

  /** The state after an outside edit and the file change that it causes. */
  function AfterEdit(app: App, s: State, file: Node): State
    requires WellFormedApp(app)
  {
    AfterFileChanged(app, s.(file := file, stale := true))
  }

  /** That is, after two steps of a run. */
  lemma EditThenFileChanged(app: App, s: State, file: Node)
    requires WellFormedApp(app) && GoodFile(file) && (s.snapshot.Some? ==> Typed(app, s.snapshot.value))
    ensures Next(app, Next(app, s, OutsideEdit(file)), FileChanged) == AfterEdit(app, s, file)
  {
    assert Next(app, s, OutsideEdit(file)) == s.(file := file, stale := true);
  }

  lemma RejectedEditStays(app: App, s: State, file: Node)
    requires WellFormedApp(app) && Rebuild(app, file, s.env).Err?
    ensures AfterEdit(app, s, file) == s.(file := file, stale := true)
  {
    var edited := s.(file := file, stale := true);
    assert AfterFileChanged(app, edited) == ReloadedWith(edited, Rebuild(app, file, s.env));
  }

  lemma AcceptedEditSyncs(app: App, s: State, file: Node)
    requires WellFormedApp(app) && Invariant(app, s) && GoodFile(file) && Rebuild(app, file, s.env).Ok?
    ensures AfterEdit(app, s, file).snapshot.Some? && Typed(app, AfterEdit(app, s, file).snapshot.value)
    ensures Synced(app, AfterEdit(app, s, file).snapshot.value, file)
  {
    NextKeeps(app, s, OutsideEdit(file));
    AcceptedReloadResyncs(app, s.(file := file, stale := true));
  }

  /** The proviso about outside edits is needed. After an outside edit and the file change that it causes, the lists
      are in step exactly if the manager took the file in, or the file has the list that the one before it had. */
  lemma OutsideEditPartsListsExactly(app: App, s: State, file: Node)
    requires WellFormedApp(app) && Invariant(app, s) && s.snapshot.Some? && !s.stale && GoodFile(file)
    ensures AfterEdit(app, s, file).snapshot.Some? && Typed(app, AfterEdit(app, s, file).snapshot.value)
    ensures Synced(app, AfterEdit(app, s, file).snapshot.value, file) <==>
            Rebuild(app, file, s.env).Ok? || !ListsDiffer(file, s.file)
    ensures Rebuild(app, file, s.env).Err? ==> AfterEdit(app, s, file).snapshot == s.snapshot
  {
    if Rebuild(app, file, s.env).Ok? {
      AcceptedEditSyncs(app, s, file);
    } else {
      RejectedEditStays(app, s, file);
    }
  }

  /** When an update writes the list, by what the caller knows: it asks for the list itself, or force-file asks for a
      path that is not in memory, or runtime-env-only asks for a path that is in memory and that a variable owns. */
  ghost predicate WritesList(app: App, env: Env, edited: Config, opts: Options)
    requires WellFormedApp(app) && Typed(app, edited)
  {
    var list := Normalize(Disabled(app, edited));
    || Names(opts.paths, DISABLED)
    || (opts.mode == FORCE_FILE && exists i :: 0 <= i < |opts.paths| && opts.paths[i] !in list)
    || (opts.mode == RUNTIME_ENV_ONLY &&
        exists i :: 0 <= i < |opts.paths| && ActiveEnv(app, env, opts.paths[i]).Some? && opts.paths[i] in list)
  }

  lemma {:induction false} NothingToAdd(base: seq<string>, extra: seq<string>)
    requires forall i :: 0 <= i < |extra| ==> extra[i] in base
    ensures Merge(base, extra) == base
  {
    if extra != [] {
      NothingToAdd(base, extra[..|extra| - 1]);
    }
  }

  lemma {:induction false} GrowsExactly(base: seq<string>, extra: seq<string>)
    ensures Merge(base, extra) != base <==> exists i :: 0 <= i < |extra| && extra[i] !in base
  {
    if i :| 0 <= i < |extra| && extra[i] !in base {
      MergeMember(base, extra, extra[i]);
    } else {
      NothingToAdd(base, extra);
    }
  }

  lemma ForceFileMetadata(app: App, access: Access, file: Node, env: Env, edited: Config, opts: Options, draft: Draft)
    requires WellFormedApp(app) && Typed(app, edited) && opts.mode == FORCE_FILE && Normalize(opts.paths) == opts.paths
    requires Prepare(app, access, file, env, edited, opts) == Ok(draft)
    ensures draft.paths == opts.paths
    ensures draft.metadata <==> exists i :: 0 <= i < |opts.paths| && opts.paths[i] !in Normalize(Disabled(app, edited))
  {
    NormalizeAppend(Disabled(app, edited), opts.paths);
    GrowsExactly(Normalize(Disabled(app, edited)), opts.paths);
  }

  lemma {:induction false} RuntimeMetadata(app: App, access: Access, file: Node, env: Env, edited: Config,
                                           opts: Options, draft: Draft)
    requires WellFormedApp(app) && Typed(app, edited) && opts.mode == RUNTIME_ENV_ONLY && opts.paths != []
    requires Prepare(app, access, file, env, edited, opts) == Ok(draft)
    ensures Names(draft.paths, DISABLED) <==> Names(opts.paths, DISABLED)
    ensures draft.metadata <==>
            exists i :: 0 <= i < |opts.paths| && ActiveEnv(app, env, opts.paths[i]).Some? &&
                        opts.paths[i] in Normalize(Disabled(app, edited))
  {
    var disabled := DisabledSet(Disabled(app, edited));
    var (d, taken) := TakeAllFromEnv(app, access, file, env, disabled, edited, opts.paths).value;
    TakeAllKeepsDisabled(app, access, file, env, disabled, edited, opts.paths, d, taken);
    forall i | 0 <= i < |opts.paths| ensures opts.paths[i] in taken <==> ActiveEnv(app, env, opts.paths[i]).Some? {
      TakenIsOwned(app, access, file, env, disabled, edited, opts.paths, d, taken, i);
    }
    ListIsNotTaken(app, env, opts.paths, taken);
  }

  /** The list has no variable, so it is never taken. */
  lemma {:induction false} ListIsNotTaken(app: App, env: Env, paths: seq<string>, taken: set<string>)
    requires WellFormedApp(app)
    requires forall i :: 0 <= i < |paths| ==> (paths[i] in taken <==> ActiveEnv(app, env, paths[i]).Some?)
    ensures Names(Without(paths, taken), DISABLED) <==> Names(paths, DISABLED)
  {
    var left := Without(paths, taken);
    if Names(paths, DISABLED) {
      var i :| 0 <= i < |paths| && Segments(paths[i]) == DISABLED;
      ListHasNoVariable(app, env, paths[i]);
      assert paths[i] in left;
      var j :| 0 <= j < |left| && left[j] == paths[i];
    }
    if Names(left, DISABLED) {
      var j :| 0 <= j < |left| && Segments(left[j]) == DISABLED;
      assert left[j] in left;
      var i :| 0 <= i < |paths| && paths[i] == left[j];
    }
  }

  lemma {:induction false} ListHasNoVariable(app: App, env: Env, path: string)
    requires WellFormedApp(app) && Segments(path) == DISABLED
    ensures ActiveEnv(app, env, path) == None
  {
    assert TrimSpace("") == "";
  }

  lemma NamesWritten(app: App, draft: Draft)
    requires WellFormedApp(app)
    ensures Names(WriteList(draft), DISABLED) <==> draft.metadata || Names(draft.paths, DISABLED)
  {
    if draft.metadata {
      MetadataIsWritten(app, draft);
    }
  }

  lemma ListIsWrittenExactly(app: App, access: Access, file: Node, env: Env, edited: Config, opts: Options,
                             draft: Draft)
    requires WellFormedApp(app) && Typed(app, edited) && Normalize(opts.paths) == opts.paths
    requires Prepare(app, access, file, env, edited, opts) == Ok(draft)
    ensures Names(WriteList(draft), DISABLED) <==> WritesList(app, env, edited, opts)
  {
    NamesWritten(app, draft);
    if opts.paths != [] && opts.mode == FORCE_FILE {
      ForceFileMetadata(app, access, file, env, edited, opts, draft);
    } else if opts.paths != [] && opts.mode == RUNTIME_ENV_ONLY {
      RuntimeMetadata(app, access, file, env, edited, opts, draft);
    }
  }

  /** An update, from lists that have parted or not, leaves them together exactly if it writes the list or they were
      together before. */
  lemma UpdateResyncsExactly(app: App, access: Access, file: Node, env: Env, edited: Config, opts: Options, o: Outcome)
    requires WellFormedApp(app) && Typed(app, edited) && GoodFile(file) && PlainInMemory(app, edited)
    requires Normalize(opts.paths) == opts.paths && Plan(app, access, file, env, edited, opts) == Ok(o)
    ensures Synced(app, o.published, FileAfter(o, file)) <==>
            WritesList(app, env, edited, opts) || Normalize(Disabled(app, edited)) == Normalize(FileDisabled(file))
  {
    var draft := PlanSplit(app, access, file, env, edited, opts, o);
    PlanStores(app, access, file, env, edited, opts, o, draft, DISABLED);
    ListIsWrittenExactly(app, access, file, env, edited, opts, draft);
    if Names(WriteList(draft), DISABLED) {
      WrittenResyncs(app, access, file, env, edited, opts, o, draft);
    } else {
      NamesWritten(app, draft);
      PrepareDisabled(app, access, file, env, edited, opts, draft);
    }
  }

  lemma WrittenResyncs(app: App, access: Access, file: Node, env: Env, edited: Config, opts: Options, o: Outcome,
                       draft: Draft)
    requires WellFormedApp(app) && Typed(app, edited) && GoodFile(file) && PlainInMemory(app, edited)
    requires Normalize(opts.paths) == opts.paths && Plan(app, access, file, env, edited, opts) == Ok(o)
    requires Prepare(app, access, file, env, edited, opts) == Ok(draft) && Names(WriteList(draft), DISABLED)
    ensures Synced(app, o.published, FileAfter(o, file))
  {
    var draft' := PlanSplit(app, access, file, env, edited, opts, o);
    PlanStores(app, access, file, env, edited, opts, o, draft, DISABLED);
    var list := Disabled(app, draft.config);
    forall x | x in Normalize(list) ensures Plain(x) {
      PublishedPlain(app, access, file, env, edited, opts, o, draft, x);
    }
    WrittenListSyncs(app, o.published, list, FileAfter(o, file));
  }

  // ---------------------------------------------------------------- the order of a publication

  /** What a successful publication adds to the trace: the file was written first if it changed, and then
      every hook is called once, in registration order, with the old and the new snapshot. */
  ghost predicate PublishedInOrder(s: State, s': State, c: Config, at: nat) {
    && |s.trace| <= at < |s'.trace| && s.trace <= s'.trace
    && s'.trace[at] == Published(c) && s'.snapshot == Some(c)
    && (s'.file != s.file ==> |s.trace| < at && s'.trace[at - 1] == Wrote(s'.file))
    && |s'.trace| == at + 1 + |s.hooks|
    && forall i :: 0 <= i < |s.hooks| ==> s'.trace[at + 1 + i] == Called(s.hooks[i], s.snapshot, c)
  }

  lemma PublicationOrder(s: State, s': State, o: Outcome)
    requires s' == UpdatedWith(s, o)
    ensures PublishedInOrder(s, s', o.published, |s.trace| + |WriteEvents(o.written)|)
  {
    var at := |s.trace| + |WriteEvents(o.written)|;
    var calls := HookCalls(s.hooks, s.snapshot, o.published);
    var upTo := s.trace + WriteEvents(o.written) + [Published(o.published)];
    assert s'.trace == upTo + calls && |upTo| == at + 1;
    forall i | 0 <= i < |s.hooks|
      ensures s'.trace[at + 1 + i] == Called(s.hooks[i], s.snapshot, o.published)
    {
      assert s'.trace[at + 1 + i] == calls[i];
    }
  }
}
