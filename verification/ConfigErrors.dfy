/** What an update that fails says of its inputs: whichever error it returns, the reason that it names is there. */
module ConfigErrors {
  import opened Text
  import opened PathLists
  import opened Placeholders
  import opened YamlTree
  import opened YamlUpdates
  import opened YamlSuccess
  import opened ConfigFile
  import opened ConfigModel
  import opened ConfigReload
  import opened ConfigLaws
  import opened ConfigKeeping
  import opened ConfigRuns
  import opened ConfigSuccess

  // ---------------------------------------------------------------- the reasons

  /** A path that the update looks at: one that was asked for, or that of the list. */
  predicate IsAsked(opts: Options, path: string) {
    path in opts.paths || path == DISABLED_PATH
  }

  /** A variable speaks for the field of a path. */
  predicate IsOwned(app: App, env: Env, path: string) {
    Segments(path) in app.fields && EnvValue(app, env, Segments(path)).Some?
  }

  predicate LeadsNowhere(file: Node, path: string) {
    Leads(file, Segments(path)) == None
  }

  /** The path leads to something with a placeholder in it. */
  predicate LeadsToHole(file: Node, path: string) {
    Leads(file, Segments(path)).Some? && ContainsPlaceholder(Leads(file, Segments(path)).value)
  }

  /** What an error of the stage before validation says. */
  predicate TakeReason(app: App, access: Access, file: Node, env: Env, disabled: set<string>, paths: seq<string>,
                       e: UpdateError) {
    match e
    case NoConfigPath => !access.hasPath
    case NotYaml => !access.isYaml
    case RootNotMapping => file.kind != Mapping
    case Yaml(_) => exists i :: 0 <= i < |paths| && LeadsNowhere(file, paths[i])
    case MissingRuntimeEnv(p) =>
      p in paths && !IsOwned(app, env, p) && (LeadsToHole(file, p) || p in disabled)
    case CannotSet(p) =>
      p in paths && IsOwned(app, env, p) &&
      FromEnv(app, app.fields[Segments(p)].ty, EnvValue(app, env, Segments(p)).value) == None
    case _ => false
  }

  /** What an error about the paths to be written says. */
  predicate PathReason(app: App, access: Access, file: Node, env: Env, c: Config, mode: int, paths: seq<string>,
                       e: UpdateError)
    requires Typed(app, c)
  {
    match e
    case NoConfigPath => !access.hasPath
    case NotYaml => !access.isYaml
    case RootNotMapping => file.kind != Mapping
    case Yaml(_) => mode == RUNTIME_ENV_ONLY && exists i :: 0 <= i < |paths| && LeadsNowhere(file, paths[i])
    case ManagedByEnv(p) => p in paths && mode != FORCE_FILE && IsOwned(app, env, p)
    case MissingRuntimeEnv(p) =>
      p in paths && mode == RUNTIME_ENV_ONLY && !IsOwned(app, env, p) && LeadsToHole(file, p)
    case UnknownKey(p) => p in paths && Segments(p) !in app.fields
    case NilValue(p) => p in paths && Segments(p) in app.fields && c[Segments(p)] == NilPtr
    case NotPersistable(p) => p in paths && Segments(p) in app.fields && c[Segments(p)].Other?
    case _ => false
  }

  /** What an error of the writing half says. */
  ghost predicate WriteReason(app: App, access: Access, file: Node, env: Env, c: Config, mode: int,
                              paths: seq<string>, e: UpdateError)
    requires Typed(app, c)
  {
    || PathReason(app, access, file, env, c, mode, paths, e)
    || (e == UnsupportedMode && mode != REJECT && mode != FORCE_FILE && mode != RUNTIME_ENV_ONLY)
    || (e == WriteFailed && !access.writable)
    || (e.Yaml? && exists i :: 0 <= i < |paths| && !CanWrite(app, file, env, c, mode, paths, i))
  }

  /** The reason that an error of the whole update names. */
  ghost predicate Reason(app: App, access: Access, file: Node, env: Env, edited: Config, opts: Options, e: UpdateError)
    requires WellFormedApp(app) && Typed(app, edited)
  {
    var list := Disabled(app, edited);
    var validated := Validate(app, Candidate(app, env, edited, opts));
    || (opts.mode == RUNTIME_ENV_ONLY && TakeReason(app, access, file, env, DisabledSet(list), opts.paths, e))
    || (e == Invalid && validated == None)
    || (validated.Some? &&
        WriteReason(app, access, file, env, validated.value, opts.mode, Writes(app, env, list, opts), e))
  }

  // ---------------------------------------------------------------- each stage

  lemma {:induction false} OneTakeReason(app: App, access: Access, file: Node, env: Env, disabled: set<string>,
                                         c: Config, path: string, e: UpdateError)
    requires TakeFromEnv(app, access, file, env, disabled, c, path) == Err(e)
    ensures TakeReason(app, access, file, env, disabled, [path], e)
  {
    assert [path][0] == path;
  }

  lemma {:induction false} TakeReasonGrows(app: App, access: Access, file: Node, env: Env, disabled: set<string>,
                                           some: seq<string>, all: seq<string>, e: UpdateError)
    requires TakeReason(app, access, file, env, disabled, some, e) && forall p :: p in some ==> p in all
    ensures TakeReason(app, access, file, env, disabled, all, e)
  {
    if e.Yaml? {
      var i :| 0 <= i < |some| && LeadsNowhere(file, some[i]);
      assert some[i] in all;
      var j :| 0 <= j < |all| && all[j] == some[i];
    }
  }

  lemma {:induction false} TakeErrorIsTrue(app: App, access: Access, file: Node, env: Env, disabled: set<string>,
                                           c: Config, paths: seq<string>, e: UpdateError)
    requires TakeAllFromEnv(app, access, file, env, disabled, c, paths) == Err(e)
    ensures TakeReason(app, access, file, env, disabled, paths, e)
  {
    var n := |paths| - 1;
    var before := TakeAllFromEnv(app, access, file, env, disabled, c, paths[..n]);
    if before.Err? {
      TakeErrorIsTrue(app, access, file, env, disabled, c, paths[..n], e);
      TakeReasonGrows(app, access, file, env, disabled, paths[..n], paths, e);
    } else {
      OneTakeReason(app, access, file, env, disabled, before.value.0, paths[n], e);
      TakeReasonGrows(app, access, file, env, disabled, [paths[n]], paths, e);
    }
  }

  lemma {:induction false} OnePathReason(app: App, access: Access, file: Node, env: Env, c: Config, mode: int,
                                         path: string, e: UpdateError)
    requires Typed(app, c) && PathUpdate(app, access, file, env, c, mode, path) == Err(e)
    ensures PathReason(app, access, file, env, c, mode, [path], e)
  {
    assert [path][0] == path;
  }

  lemma {:induction false} PathReasonGrows(app: App, access: Access, file: Node, env: Env, c: Config, mode: int,
                                           some: seq<string>, all: seq<string>, e: UpdateError)
    requires Typed(app, c) && PathReason(app, access, file, env, c, mode, some, e)
    requires forall p :: p in some ==> p in all
    ensures PathReason(app, access, file, env, c, mode, all, e)
  {
    if e.Yaml? {
      var i :| 0 <= i < |some| && LeadsNowhere(file, some[i]);
      assert some[i] in all;
      var j :| 0 <= j < |all| && all[j] == some[i];
    }
  }

  lemma {:induction false} PathErrorIsTrue(app: App, access: Access, file: Node, env: Env, c: Config, mode: int,
                                           paths: seq<string>, e: UpdateError)
    requires Typed(app, c) && PathUpdates(app, access, file, env, c, mode, paths) == Err(e)
    ensures PathReason(app, access, file, env, c, mode, paths, e)
  {
    var n := |paths| - 1;
    if PathUpdates(app, access, file, env, c, mode, paths[..n]).Err? {
      PathErrorIsTrue(app, access, file, env, c, mode, paths[..n], e);
      PathReasonGrows(app, access, file, env, c, mode, paths[..n], paths, e);
    } else {
      OnePathReason(app, access, file, env, c, mode, paths[n], e);
      PathReasonGrows(app, access, file, env, c, mode, [paths[n]], paths, e);
    }
  }

  lemma {:induction false} BatchErrorIsTrue(app: App, access: Access, file: Node, env: Env, c: Config, mode: int,
                                            paths: seq<string>, us: seq<Update>)
    requires WellFormedApp(app) && Typed(app, c) && WellFormed(file) && IsAccessible(access, file)
    requires PathUpdates(app, access, file, env, c, mode, paths) == Ok(us)
    requires ApplyAll(file, us, mode == FORCE_FILE).Err?
    ensures exists i :: 0 <= i < |paths| && !CanWrite(app, file, env, c, mode, paths, i)
  {
    UpdatesLandExactly(app, access, file, env, c, mode, paths, us);
  }

  lemma {:induction false} WriteErrorIsTrue(app: App, access: Access, file: Node, env: Env, c: Config, mode: int,
                                            paths: seq<string>, e: UpdateError)
    requires WellFormedApp(app) && Typed(app, c) && WellFormed(file)
    requires Writing(app, access, file, env, c, mode, paths) == Err(e)
    ensures WriteReason(app, access, file, env, c, mode, paths, e)
  {
    if access.hasPath && REJECT <= mode <= RUNTIME_ENV_ONLY {
      var updates := PathUpdates(app, access, file, env, c, mode, paths);
      if updates.Err? {
        PathErrorIsTrue(app, access, file, env, c, mode, paths, e);
      } else if IsAccessible(access, file) && ApplyAll(file, updates.value, mode == FORCE_FILE).Err? {
        BatchErrorIsTrue(app, access, file, env, c, mode, paths, updates.value);
      }
    }
  }

  // ---------------------------------------------------------------- the update

  /** Whichever error an update returns, the reason that it names is there: it is about a path that was asked for and
      about what variables, values and the file have there, or about access, mode and validation. */
  lemma {:induction false} ErrorIsTrue(app: App, access: Access, file: Node, env: Env, edited: Config, opts: Options,
                                       e: UpdateError)
    requires WellFormedApp(app) && Typed(app, edited) && WellFormed(file) && Normalize(opts.paths) == opts.paths
    requires Plan(app, access, file, env, edited, opts) == Err(e)
    ensures Reason(app, access, file, env, edited, opts, e)
  {
    var prepared := Prepare(app, access, file, env, edited, opts);
    if prepared.Err? {
      TakeErrorIsTrue(app, access, file, env, DisabledSet(Disabled(app, edited)), edited, opts.paths, e);
    } else {
      DraftIs(app, access, file, env, edited, opts, prepared.value);
      WrittenErrorIsTrue(app, access, file, env, edited, opts, prepared.value, e);
    }
  }

  lemma {:induction false} WrittenErrorIsTrue(app: App, access: Access, file: Node, env: Env, edited: Config,
                                              opts: Options, draft: Draft, e: UpdateError)
    requires WellFormedApp(app) && Typed(app, edited) && WellFormed(file)
    requires Prepare(app, access, file, env, edited, opts) == Ok(draft)
    requires draft.config == Candidate(app, env, edited, opts)
    requires WriteList(draft) == Writes(app, env, Disabled(app, edited), opts)
    requires Plan(app, access, file, env, edited, opts) == Err(e)
    ensures Reason(app, access, file, env, edited, opts, e)
  {
    match Validate(app, draft.config)
    case None =>
    case Some(c) => WriteErrorIsTrue(app, access, file, env, c, opts.mode, WriteList(draft), e);
  }

  /** The same on a state of the manager. */
  ghost predicate ReasonIn(app: App, s: State, edit: Config -> Config, opts: Options, access: Access, e: UpdateError)
    requires WellFormedApp(app) && (s.snapshot.Some? ==> Typed(app, edit(s.snapshot.value)))
  {
    match s.snapshot
    case None => e == NotLoaded
    case Some(c) =>
      Reason(app, access, s.file, s.env, edit(c), Options(Normalize(opts.paths), opts.mode), e)
  }

  lemma {:induction false} ErrorsInAreTrue(app: App, s: State, edit: Config -> Config, opts: Options, access: Access)
    requires WellFormedApp(app) && (s.snapshot.Some? ==> Typed(app, edit(s.snapshot.value))) && WellFormed(s.file)
    ensures UpdateOutcome(app, s, edit, opts, access).Err? ==>
              ReasonIn(app, s, edit, opts, access, UpdateOutcome(app, s, edit, opts, access).error)
  {
    if s.snapshot.Some? && UpdateOutcome(app, s, edit, opts, access).Err? {
      NormalizeTwice(opts.paths);
      ErrorIsTrue(app, access, s.file, s.env, edit(s.snapshot.value), Options(Normalize(opts.paths), opts.mode),
                  UpdateOutcome(app, s, edit, opts, access).error);
    }
  }
}
