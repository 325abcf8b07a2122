/** The configuration manager as it runs: its loops, and its methods over snapshot, file and hooks. */
module ConfigManager {
  import opened Text
  import opened PathLists
  import opened Placeholders
  import opened YamlTree
  import opened YamlHeap
  import opened YamlDocument
  import opened ConfigFile
  import opened ConfigModel
  import opened ConfigLaws
  import opened ConfigLayers
  import opened ConfigRuns
  import opened ConfigSuccess
  import opened ConfigErrors

  // ---------------------------------------------------------------- the loops of an update

  lemma {:induction false} PathUpdatesStop(app: App, access: Access, file: Node, env: Env, c: Config, mode: int,
                                           paths: seq<string>, i: nat)
    requires Typed(app, c) && i <= |paths| && PathUpdates(app, access, file, env, c, mode, paths[..i]).Err?
    ensures PathUpdates(app, access, file, env, c, mode, paths) ==
            PathUpdates(app, access, file, env, c, mode, paths[..i])
    decreases |paths|
  {
    if i == |paths| {
      assert paths[..i] == paths;
    } else {
      var init := paths[..|paths| - 1];
      assert init[..i] == paths[..i];
      PathUpdatesStop(app, access, file, env, c, mode, init, i);
    }
  }

  lemma {:induction false} PathUpdatesNext(app: App, access: Access, file: Node, env: Env, c: Config, mode: int,
                                           paths: seq<string>, i: nat, updates: seq<Update>)
    requires Typed(app, c) && i < |paths| && PathUpdates(app, access, file, env, c, mode, paths[..i]) == Ok(updates)
    ensures PathUpdates(app, access, file, env, c, mode, paths[..i + 1]) ==
            match PathUpdate(app, access, file, env, c, mode, paths[i])
            case Err(e) => Err(e)
            case Ok(u) => Ok(updates + [u])
  {
    assert paths[..i + 1][..i] == paths[..i];
  }

  /** The loop of persistConfigUpdate that turns paths into updates, stopping at the first error. */
  method CollectUpdates(app: App, access: Access, file: Node, env: Env, c: Config, mode: int, paths: seq<string>)
    returns (r: Result<seq<Update>, UpdateError>)
    requires Typed(app, c)
    ensures r == PathUpdates(app, access, file, env, c, mode, paths)
  {
    var updates: seq<Update> := [];
    for i := 0 to |paths|
      invariant PathUpdates(app, access, file, env, c, mode, paths[..i]) == Ok(updates)
    {
      PathUpdatesNext(app, access, file, env, c, mode, paths, i, updates);
      match PathUpdate(app, access, file, env, c, mode, paths[i])
      case Err(e) =>
        PathUpdatesStop(app, access, file, env, c, mode, paths, i + 1);
        return Err(e);
      case Ok(u) =>
        updates := updates + [u];
    }
    assert paths[..|paths|] == paths;
    return Ok(updates);
  }

  /** UpdateYAMLScalars up to the write: the file is parsed into nodes, the nodes are changed in place, and the
      document is printed. An error leaves the file alone, also when nodes have been changed already. */
  method RewriteFile(file: Node, updates: seq<Update>, overwrite: bool) returns (r: Result<Node, Error>)
    ensures match ApplyAll(file, updates, overwrite)
            case Err(e) => r == Err(e)
            case Ok((tree, _)) => r == Ok(tree)
  {
    var root: YamlNode;
    ghost var at: Layout;
    root, at := Parse(file);
    var applied: Result<(), Error>;
    ghost var at': Layout, tree': Node, done: nat;
    applied, at', tree', done := UpdateYamlScalars(root, updates, overwrite, at, file);
    if applied.Err? {
      return Err(applied.error);
    }
    var tree := Print(root, at', tree', []);
    return Ok(tree);
  }

  /** persistConfigUpdate up to the write: every check of every path, and then the rewritten document. */
  method PersistUpdate(app: App, access: Access, file: Node, env: Env, c: Config, mode: int, paths: seq<string>)
    returns (r: Result<Node, UpdateError>)
    requires Typed(app, c)
    ensures r == Persist(app, access, file, env, c, mode, paths)
  {
    if !access.hasPath {
      return Err(NoConfigPath);
    }
    if !(REJECT <= mode <= RUNTIME_ENV_ONLY) {
      return Err(UnsupportedMode);
    }
    var collected := CollectUpdates(app, access, file, env, c, mode, paths);
    if collected.Err? {
      return Err(collected.error);
    }
    if !access.isYaml {
      return Err(NotYaml);
    }
    if file.kind != Mapping {
      return Err(RootNotMapping);
    }
    var rewritten := RewriteFile(file, collected.value, mode == FORCE_FILE);
    if rewritten.Err? {
      return Err(Yaml(rewritten.error));
    }
    return if access.writable then Ok(rewritten.value) else Err(WriteFailed);
  }

  lemma {:induction false} TakeAllStops(app: App, access: Access, file: Node, env: Env, disabled: set<string>,
                                        c: Config, paths: seq<string>, i: nat)
    requires i <= |paths| && TakeAllFromEnv(app, access, file, env, disabled, c, paths[..i]).Err?
    ensures TakeAllFromEnv(app, access, file, env, disabled, c, paths) ==
            TakeAllFromEnv(app, access, file, env, disabled, c, paths[..i])
    decreases |paths|
  {
    if i == |paths| {
      assert paths[..i] == paths;
    } else {
      var init := paths[..|paths| - 1];
      assert init[..i] == paths[..i];
      TakeAllStops(app, access, file, env, disabled, c, init, i);
    }
  }

  /** applyRuntimeEnvOnlyPersistPaths: values taken from the environment, and the paths they were taken for. */
  method TakeOwnedPaths(app: App, access: Access, file: Node, env: Env, c: Config, paths: seq<string>)
    returns (r: Result<(Config, set<string>), UpdateError>)
    requires WellFormedApp(app) && Typed(app, c)
    ensures r == TakeAllFromEnv(app, access, file, env, DisabledSet(Disabled(app, c)), c, paths)
  {
    var disabled := DisabledSet(Disabled(app, c));
    var taken: set<string> := {};
    var d := c;
    for i := 0 to |paths|
      invariant TakeAllFromEnv(app, access, file, env, disabled, c, paths[..i]) == Ok((d, taken))
    {
      assert paths[..i + 1][..i] == paths[..i];
      match TakeFromEnv(app, access, file, env, disabled, d, paths[i])
      case Err(e) =>
        TakeAllStops(app, access, file, env, disabled, c, paths, i + 1);
        return Err(e);
      case Ok((d', took)) =>
        d := d';
        taken := if took then taken + {paths[i]} else taken;
    }
    assert paths[..|paths|] == paths;
    return Ok((d, taken));
  }

  /** The part of Update between the caller's edit and validation. */
  method DraftUpdate(app: App, access: Access, file: Node, env: Env, edited: Config, opts: Options)
    returns (r: Result<Draft, UpdateError>)
    requires WellFormedApp(app) && Typed(app, edited)
    ensures r == Prepare(app, access, file, env, edited, opts)
  {
    if opts.mode == RUNTIME_ENV_ONLY && |opts.paths| > 0 {
      var owned := TakeOwnedPaths(app, access, file, env, edited, opts.paths);
      if owned.Err? {
        return Err(owned.error);
      }
      var (c, taken) := owned.value;
      TakeAllTyped(app, access, file, env, DisabledSet(Disabled(app, edited)), edited, opts.paths);
      var next, changed := RemovePaths(Disabled(app, c), taken);
      var kept := KeepPaths(opts.paths, taken);
      return Ok(Draft(c[DISABLED := Strs(next)], kept, changed));
    }
    if opts.mode == FORCE_FILE && |opts.paths| > 0 {
      var next, changed := AddPaths(Disabled(app, edited), opts.paths);
      return Ok(Draft(edited[DISABLED := Strs(next)], opts.paths, changed));
    }
    return Ok(Draft(edited, opts.paths, false));
  }

  /** The override pass: every tagged field that is not disabled takes its variable's value. */
  method OverrideFields(app: App, env: Env, disabledPaths: seq<string>, c: Config) returns (r: Config)
    requires c.Keys == app.fields.Keys
    ensures r == Override(app, env, DisabledSet(disabledPaths), c)
  {
    var disabled := DisabledSet(disabledPaths);
    var todo := c.Keys;
    r := c;
    while todo != {}
      invariant todo <= c.Keys && r.Keys == c.Keys
      invariant forall k :: k in todo ==> r[k] == c[k]
      invariant forall k :: k in c && k !in todo ==> r[k] == OverrideLeaf(app, env, disabled, k, c[k])
      decreases todo
    {
      var k :| k in todo;
      r := r[k := OverrideLeaf(app, env, disabled, k, r[k])];
      todo := todo - {k};
    }
    OverrideFrom(app, env, disabled, c, r);
  }

  lemma {:induction false} OverrideFrom(app: App, env: Env, disabled: set<string>, c: Config, r: Config)
    requires c.Keys == app.fields.Keys && r.Keys == c.Keys
    requires forall k :: k in c ==> r[k] == OverrideLeaf(app, env, disabled, k, c[k])
    ensures r == Override(app, env, disabled, c)
  {
  }

  /** Unmarshalling: a walk over the fields that stops at the first one that does not decode. */
  method DecodeFields(app: App, settings: Node, env: Env) returns (r: Option<Config>)
    requires WellFormedApp(app)
    ensures r.Some? <==> forall k :: k in app.fields ==> FileLeaf(app, settings, env, k).Some?
    ensures r.Some? ==>
              && Typed(app, r.value)
              && forall k :: k in app.fields ==> FileLeaf(app, settings, env, k) == Some(r.value[k])
  {
    var c: Config := map[];
    var todo := app.fields.Keys;
    while todo != {}
      invariant todo <= app.fields.Keys && c.Keys == app.fields.Keys - todo
      invariant forall k :: k in c ==> FileLeaf(app, settings, env, k) == Some(c[k])
      decreases todo
    {
      var k :| k in todo;
      var leaf := FileLeaf(app, settings, env, k);
      if leaf.None? {
        return None;
      }
      c, todo := c[k := leaf.value], todo - {k};
    }
    DecodedIsTyped(app, settings, env, c);
    return Some(c);
  }

  lemma DecodedIsTyped(app: App, settings: Node, env: Env, c: Config)
    requires WellFormedApp(app) && c.Keys == app.fields.Keys
    requires forall k :: k in c ==> FileLeaf(app, settings, env, k) == Some(c[k])
    ensures Typed(app, c)
  {
    forall k | k in c ensures HasType(c[k], app.fields[k].ty) {
      FileLeafTyped(app, settings, env, k);
    }
  }

  /** Decoding, the environment, validation. */
  method SettleSnapshot(app: App, settings: Node, env: Env) returns (r: Result<Config, LoadError>)
    requires WellFormedApp(app)
    ensures r == Settle(app, settings, env)
  {
    var decoded := DecodeFields(app, settings, env);
    if decoded.None? {
      return Err(UnmarshalFailed);
    }
    var c := decoded.value;
    UnvalidatedFrom(app, settings, env, c);
    var raw := OverrideFields(app, env, Disabled(app, c), c);
    match Validate(app, raw)
    case None => return Err(ValidationFailed);
    case Some(d) => return Ok(d);
  }

  // ---------------------------------------------------------------- the manager

  class Manager {
    const app: App
    /** The published snapshot. */
    var snapshot: Option<Config>
    /** What the loader keeps on top of the file. */
    var layer: Option<Node>
    /** The file and the process environment that the manager works on. */
    var file: Node
    var env: Env
    var hooks: seq<nat>
    /** What the manager has done, and whether the list in memory may differ from the file's. */
    ghost var trace: seq<Event>
    ghost var stale: bool

    ghost predicate Valid()
      reads this
    {
      WellFormedApp(app) && (snapshot.Some? ==> Typed(app, snapshot.value))
    }

    ghost function View(): State
      reads this
    {
      State(snapshot, layer, file, env, hooks, trace, stale)
    }

    constructor (app: App, file: Node, env: Env)
      requires WellFormedApp(app)
      ensures Valid() && this.app == app && View() == Start(file, env)
    {
      this.app := app;
      this.snapshot, this.layer := None, None;
      this.file, this.env := file, env;
      this.hooks, this.trace := [], [];
      this.stale := true;
    }

    method RegisterHook(hook: nat)
      requires Valid()
      modifies this`hooks
      ensures Valid() && hooks == old(hooks) + [hook]
    {
      hooks := hooks + [hook];
    }

    /** notifyHooks: in registration order, each once. */
    method NotifyHooks(before: Option<Config>, after: Config)
      requires Valid()
      modifies this`trace
      ensures Valid() && trace == old(trace) + HookCalls(hooks, before, after)
    {
      for i := 0 to |hooks|
        invariant trace == old(trace) + HookCalls(hooks, before, after)[..i]
      {
        trace := trace + [Called(hooks[i], before, after)];
      }
    }

    /** Load on the manager's own loader, which keeps what it has processed. The snapshot is published, and no hook is
        called. */
    method Load() returns (r: Result<(), LoadError>)
      requires Valid()
      modifies this`snapshot, this`layer, this`trace, this`stale
      ensures Valid() && View() == AfterLoad(app, old(View()))
      ensures r.Ok? <==> CanRead(file) && Settle(app, Settings(old(layer), file), env).Ok?
      ensures r.Ok? ==> snapshot.Some? && trace == old(trace) + [Published(snapshot.value)]
      ensures r.Err? ==> snapshot == old(snapshot) && trace == old(trace)
    {
      if !CanRead(file) {
        return Err(ReadFailed);
      }
      var settings := Settings(layer, file);
      var settled := SettleSnapshot(app, settings, env);
      Keep(settings, settled);
      return if settled.Ok? then Ok(()) else Err(settled.error);
    }

    /** The loader keeps the processed settings in any case; the snapshot is published if all went well. */
    method Keep(settings: Node, settled: Result<Config, LoadError>)
      requires Valid() && (settled.Ok? ==> Typed(app, settled.value))
      modifies this`snapshot, this`layer, this`trace, this`stale
      ensures Valid() && View() == LoadedWith(old(View()), settings, settled)
    {
      layer := Some(LayerAfter(settings, env));
      if settled.Ok? {
        snapshot := Some(settled.value);
        trace := trace + [Published(settled.value)];
        stale := ListsDiffer(settings, file);
      }
    }

    /** The end of handleConfigChange: a new snapshot is published and the hooks are told. */
    method TakeIn(rebuilt: Result<Config, LoadError>)
      requires Valid() && (rebuilt.Ok? ==> Typed(app, rebuilt.value))
      modifies this`snapshot, this`trace, this`stale
      ensures Valid() && View() == ReloadedWith(old(View()), rebuilt)
    {
      if rebuilt.Err? {
        return;
      }
      var before := snapshot;
      stale := false;
      if before == Some(rebuilt.value) {
        return;
      }
      snapshot := Some(rebuilt.value);
      trace := trace + [Published(rebuilt.value)];
      NotifyHooks(before, rebuilt.value);
    }

    /** handleConfigChange, on a loader of its own. A snapshot that is not accepted or not new changes nothing; a new
        one is published, and then each hook is called once, in order, with the old and the new snapshot. */
    method HandleConfigChange()
      requires Valid()
      modifies this`snapshot, this`trace, this`stale
      ensures Valid() && View() == AfterFileChanged(app, old(View()))
      ensures var r := Rebuild(app, file, env);
              if r.Ok? && old(snapshot) != Some(r.value) then
                snapshot == Some(r.value) &&
                  trace == old(trace) + [Published(r.value)] + HookCalls(hooks, old(snapshot), r.value)
              else snapshot == old(snapshot) && trace == old(trace)
    {
      if !CanRead(file) {
        return;
      }
      var rebuilt := SettleSnapshot(app, file, env);
      TakeIn(rebuilt);
    }

    /** The writing half of Update: nothing to write, or the rewritten document put in the file's place. */
    method WriteBack(c: Config, mode: int, writes: seq<string>, access: Access)
      returns (r: Result<Option<Node>, UpdateError>)
      requires Valid() && Typed(app, c)
      modifies this`file, this`trace
      ensures Valid()
      ensures r == Writing(app, access, old(file), env, c, mode, writes)
      ensures r.Err? ==> file == old(file) && trace == old(trace)
      ensures r.Ok? ==>
              trace == old(trace) + WriteEvents(r.value) && file == if r.value.Some? then r.value.value else old(file)
    {
      if |writes| == 0 {
        return Ok(None);
      }
      var persisted := PersistUpdate(app, access, file, env, c, mode, writes);
      if persisted.Err? {
        return Err(persisted.error);
      }
      file := persisted.value;
      trace := trace + [Wrote(file)];
      return Ok(Some(file));
    }

    /** The snapshot is published, and the hooks are told. */
    method Publish(c: Config)
      requires Valid() && Typed(app, c)
      modifies this`snapshot, this`trace
      ensures Valid() && snapshot == Some(c)
      ensures trace == old(trace) + [Published(c)] + HookCalls(hooks, old(snapshot), c)
    {
      var before := snapshot;
      snapshot := Some(c);
      trace := trace + [Published(c)];
      NotifyHooks(before, c);
    }

    /** The stages of Update before publication. */
    method Commit(edited: Config, asked: Options, access: Access) returns (r: Result<Outcome, UpdateError>)
      requires Valid() && Typed(app, edited)
      modifies this`file, this`trace
      ensures Valid() && r == Plan(app, access, old(file), env, edited, asked)
      ensures r.Err? ==> file == old(file) && trace == old(trace)
      ensures r.Ok? ==> trace == old(trace) + WriteEvents(r.value.written) && file == FileAfter(r.value, old(file))
    {
      var drafted := DraftUpdate(app, access, file, env, edited, asked);
      if drafted.Err? {
        return Err(drafted.error);
      }
      var validated := Validate(app, drafted.value.config);
      if validated.None? {
        return Err(Invalid);
      }
      var written := WriteBack(validated.value, asked.mode, WriteList(drafted.value), access);
      PlanFrom(app, access, old(file), env, edited, asked, drafted.value, validated.value, written);
      if written.Err? {
        return Err(written.error);
      }
      return Ok(Outcome(validated.value, written.value));
    }

    /** Update: draft, validate, rewrite the file, publish, notify. Whatever goes wrong, at whatever stage, snapshot,
        file and trace are as they were and no hook has run. If nothing does, the file was written before the snapshot
        was published, and then each hook was called once, in order, with the old and the new snapshot. It succeeds
        exactly if the condition of ConfigSuccess holds, and whichever error it returns, its reason is there. */
    method Update(edit: Config -> Config, opts: Options, access: Access) returns (r: Result<(), UpdateError>)
      requires Valid() && (snapshot.Some? ==> Typed(app, edit(snapshot.value)))
      modifies this`snapshot, this`file, this`trace
      ensures Valid()
      ensures r.Err? ==> snapshot == old(snapshot) && file == old(file) && trace == old(trace)
      ensures r.Ok? ==> snapshot.Some? && exists at :: PublishedInOrder(old(View()), View(), snapshot.value, at)
      ensures View() == AfterUpdate(app, old(View()), edit, opts, access)
      ensures r.Err? <==> UpdateOutcome(app, old(View()), edit, opts, access).Err?
      ensures r.Err? ==> r.error == UpdateOutcome(app, old(View()), edit, opts, access).error
      ensures WellFormed(old(file)) ==> (r.Ok? <==> CanUpdateIn(app, old(View()), edit, opts, access))
      ensures WellFormed(old(file)) && r.Ok? ==> snapshot == Accepted(app, old(View()), edit, opts)
      ensures WellFormed(old(file)) && r.Err? ==> ReasonIn(app, old(View()), edit, opts, access, r.error)
    {
      if WellFormed(file) {
        UpdateInSucceedsExactly(app, View(), edit, opts, access);
        ErrorsInAreTrue(app, View(), edit, opts, access);
      }
      if snapshot.None? {
        return Err(NotLoaded);
      }
      var paths := NormalizePaths(opts.paths);
      var committed := Commit(edit(snapshot.value), Options(paths, opts.mode), access);
      if committed.Err? {
        return Err(committed.error);
      }
      Finish(committed.value, old(View()));
      return Ok(());
    }

    /** The end of a successful update, after the write. */
    method Finish(o: Outcome, ghost before: State)
      requires Valid() && Typed(app, o.published)
      requires View() == before.(file := FileAfter(o, before.file), trace := before.trace + WriteEvents(o.written))
      modifies this`snapshot, this`trace
      ensures Valid() && snapshot == Some(o.published) && View() == UpdatedWith(before, o)
      ensures exists at :: PublishedInOrder(before, View(), o.published, at)
    {
      Publish(o.published);
      PublicationOrder(before, View(), o);
    }
  }
}
