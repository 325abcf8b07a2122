/** A value that was persisted, over any run: what every later reload gives, as long as nobody touches it. */
module ConfigPersistence {
  import opened Text
  import opened PathLists
  import opened Placeholders
  import opened YamlTree
  import opened ConfigFile
  import opened ConfigModel
  import opened ConfigReload
  import opened ConfigLaws
  import opened ConfigLayers
  import opened ConfigRoundTrip
  import opened ConfigKeeping
  import opened ConfigRuns

  // ---------------------------------------------------------------- what file and environment give for a field

  /** The value stands in the file under the field's key. */
  predicate InFile(file: Node, key: Key, v: Leaf) {
    !v.NilPtr? && !v.Other? && LoadLookup(file, key) == Some(LeafNode(v))
  }

  /** A variable holds the value. */
  predicate InEnv(app: App, env: Env, key: Key, v: Leaf)
    requires key in app.fields
  {
    EnvValue(app, env, key).Some? && FromEnv(app, app.fields[key].ty, EnvValue(app, env, key).value) == Some(v)
  }

  /** File and environment give the value: the file holds it and no variable comes in between, or a variable holds it
      and the list does not shut the variable out. */
  predicate Gives(app: App, file: Node, env: Env, key: Key, v: Leaf)
    requires key in app.fields
  {
    || (InFile(file, key, v) && (PathText(key) in Listed(file) || EnvValue(app, env, key) == None))
    || (InEnv(app, env, key, v) && PathText(key) !in Listed(file))
  }

  /** The file gives the value and the list shuts the variable out, so the environment does not matter. */
  predicate GivesAlways(file: Node, key: Key, v: Leaf) {
    InFile(file, key, v) && PathText(key) in Listed(file)
  }

  lemma {:induction false} FromFile(app: App, file: Node, env: Env, key: Key, v: Leaf, c: Config)
    requires WellFormedApp(app) && key in app.fields && key != DISABLED && PlainDisabled(file)
    requires InFile(file, key, v) && (PathText(key) in Listed(file) || EnvValue(app, env, key) == None)
    requires HasType(v, app.fields[key].ty) && PlainLeaf(v) && Fixes(app, key, Canon(v))
    requires Rebuild(app, file, env) == Ok(c)
    ensures c[key] == Canon(v)
  {
    var raw := RebuildAt(app, file, env, c);
    WrittenLeafReadsBack(app, file, env, key, v);
    UnvalidatedAt(app, file, env, raw, key);
    PlainDisabledReads(app, file, env);
    ValidateFixed(app, key, raw, c);
  }

  lemma {:induction false} FromVariable(app: App, file: Node, env: Env, key: Key, v: Leaf, c: Config)
    requires WellFormedApp(app) && key in app.fields && key != DISABLED && PlainDisabled(file)
    requires InEnv(app, env, key, v) && PathText(key) !in Listed(file) && Fixes(app, key, v)
    requires Rebuild(app, file, env) == Ok(c)
    ensures c[key] == v
  {
    var raw := RebuildAt(app, file, env, c);
    UnvalidatedAt(app, file, env, raw, key);
    PlainDisabledReads(app, file, env);
    ValidateFixed(app, key, raw, c);
  }

  /** A reload gives what file and environment give. */
  lemma GivenIsLoaded(app: App, file: Node, env: Env, key: Key, v: Leaf, c: Config)
    requires WellFormedApp(app) && key in app.fields && key != DISABLED && PlainDisabled(file)
    requires HasType(v, app.fields[key].ty) && PlainLeaf(v) && Fixes(app, key, Canon(v))
    requires Gives(app, file, env, key, v) && Rebuild(app, file, env) == Ok(c)
    requires InEnv(app, env, key, v) && PathText(key) !in Listed(file) ==> Fixes(app, key, v)
    ensures Canon(c[key]) == Canon(v)
  {
    if InEnv(app, env, key, v) && PathText(key) !in Listed(file) {
      FromVariable(app, file, env, key, v, c);
    } else {
      CanonTwice(v);
      FromFile(app, file, env, key, v, c);
    }
  }

  /** What a successful update leaves for a requested field whose path text reaches the list. */
  lemma UpdateGives(app: App, access: Access, file: Node, env: Env, edited: Config, opts: Options, outcome: Outcome,
                    p: string)
    requires Updated(app, access, file, env, edited, opts, outcome)
    requires p in opts.paths && Segments(p) in app.fields && Segments(p) != DISABLED
    requires TextReaches(app, env, edited, opts, Segments(p))
    requires Settled(app, env, opts.mode, Segments(p), outcome.published)
    ensures var v := outcome.published[Segments(p)];
            && Gives(app, FileAfter(outcome, file), env, Segments(p), v)
            && (opts.mode == FORCE_FILE ==> GivesAlways(FileAfter(outcome, file), Segments(p), v))
            && (opts.mode != FORCE_FILE && InEnv(app, env, Segments(p), v) ==> Fixes(app, Segments(p), v))
  {
    var key, file' := Segments(p), FileAfter(outcome, file);
    PlanKeepsSync(app, access, file, env, edited, opts, outcome);
    RequestedPathHandled(app, access, file, env, edited, opts, outcome, p);
    ListedIs(app, outcome.published, file', PathText(key));
    if HandledByFile(app, file, env, opts, outcome, p) {
      if opts.mode == FORCE_FILE {
        ForceFileLists(app, access, file, env, edited, opts, outcome, PathText(key));
      }
    } else {
      RuntimeLists(app, access, file, env, edited, opts, outcome, key);
    }
  }

  /** An update that does not ask for the field leaves all this alone. */
  lemma UnrequestedIsKept(app: App, access: Access, file: Node, env: Env, edited: Config, opts: Options,
                          outcome: Outcome, key: Key, v: Leaf)
    requires Updated(app, access, file, env, edited, opts, outcome) && Unrequested(app, opts, key)
    ensures Gives(app, file, env, key, v) ==> Gives(app, FileAfter(outcome, file), env, key, v)
    ensures GivesAlways(file, key, v) ==> GivesAlways(FileAfter(outcome, file), key, v)
  {
    UnrequestedNodeStays(app, access, file, env, edited, opts, outcome, key);
    UnrequestedLeafStays(app, access, file, env, edited, opts, outcome, key, env);
  }

  // ---------------------------------------------------------------- runs

  /** A step that leaves the field alone. The environment may change if the list shuts it out. A repeated load must not
      bring an older list back: an update would then write that list, and the field's path would be gone from it. */
  ghost predicate Quiet(s: State, step: Step, next: State, key: Key, forced: bool) {
    match step
    case Update(_, opts, _) => !Names(Normalize(opts.paths), key)
    case OutsideEdit(_) => false
    case SetEnv(env) => forced || env == s.env
    case Load => !next.stale
    case _ => true
  }

  /** The field between the update and the reload: after force-file in any environment, else in the same one. */
  predicate Kept(app: App, s: State, env: Env, key: Key, v: Leaf, forced: bool)
    requires key in app.fields
  {
    !s.stale && (if forced then GivesAlways(s.file, key, v) else s.env == env && Gives(app, s.file, env, key, v))
  }

  lemma UpdateKeepsField(app: App, s: State, edit: Config -> Config, opts: Options, access: Access, env: Env, key: Key,
                         v: Leaf, forced: bool)
    requires WellFormedApp(app) && Invariant(app, s) && Allowed(app, Step.Update(edit, opts, access))
    requires s.snapshot.Some? ==> Typed(app, edit(s.snapshot.value))
    requires key in app.fields && key != DISABLED && !Names(Normalize(opts.paths), key)
    requires Kept(app, s, env, key, v, forced)
    ensures Kept(app, AfterUpdate(app, s, edit, opts, access), env, key, v, forced)
  {
    var r := UpdateOutcome(app, s, edit, opts, access);
    if r.Ok? {
      StepIsUpdate(app, s, edit, opts, access, r.value);
      UnrequestedIsKept(app, access, s.file, s.env, edit(s.snapshot.value), Options(Normalize(opts.paths), opts.mode),
                        r.value, key, v);
    }
  }

  /** A step that touches neither file nor environment. */
  lemma {:induction false} OthersKeepField(app: App, s: State, next: State, env: Env, key: Key, v: Leaf, forced: bool)
    requires key in app.fields && Kept(app, s, env, key, v, forced)
    requires next.file == s.file && (forced || next.env == s.env) && !next.stale
    ensures Kept(app, next, env, key, v, forced)
  {
  }

  lemma {:induction false} LoadKeepsFile(app: App, s: State)
    requires WellFormedApp(app)
    ensures AfterLoad(app, s).file == s.file && AfterLoad(app, s).env == s.env
  {
  }

  lemma {:induction false} FileChangedKeepsFile(app: App, s: State)
    requires WellFormedApp(app)
    ensures var next := AfterFileChanged(app, s);
            next.file == s.file && next.env == s.env && (!s.stale ==> !next.stale)
  {
  }

  lemma QuietKeeps(app: App, s: State, step: Step, next: State, env: Env, key: Key, v: Leaf, forced: bool)
    requires WellFormedApp(app) && Invariant(app, s) && Allowed(app, step)
    requires (s.snapshot.Some? ==> Typed(app, s.snapshot.value)) && next == Next(app, s, step)
    requires key in app.fields && key != DISABLED && Quiet(s, step, next, key, forced)
    requires Kept(app, s, env, key, v, forced)
    ensures Kept(app, next, env, key, v, forced)
  {
    match step
    case Update(edit, opts, access) => UpdateKeepsField(app, s, edit, opts, access, env, key, v, forced);
    case Load =>
      LoadKeepsFile(app, s);
      OthersKeepField(app, s, next, env, key, v, forced);
    case FileChanged =>
      FileChangedKeepsFile(app, s);
      OthersKeepField(app, s, next, env, key, v, forced);
    case SetEnv(_) => OthersKeepField(app, s, next, env, key, v, forced);
    case RegisterHook(_) => OthersKeepField(app, s, next, env, key, v, forced);
  }

  /** The steps of a run from one state to a later one, quiet all the way. */
  ghost predicate QuietBetween(states: seq<State>, steps: seq<Step>, first: nat, last: nat, key: Key, forced: bool)
    requires first <= last < |states| == |steps| + 1
  {
    forall i {:trigger steps[i]} :: first <= i < last ==> Quiet(states[i], steps[i], states[i + 1], key, forced)
  }

  /** The places of a run at which the field is kept. */
  function KeptAt(app: App, states: seq<State>, env: Env, key: Key, v: Leaf, forced: bool): set<int>
    requires key in app.fields
  {
    set i: int | 0 <= i < |states| && Kept(app, states[i], env, key, v, forced)
  }

  lemma {:induction false} QuietStepKeeps(app: App, states: seq<State>, steps: seq<Step>, first: nat, i: nat,
                                          last: nat, env: Env, key: Key, v: Leaf, forced: bool)
    requires WellFormedApp(app) && IsRun(app, states, steps) && first <= i < last < |states|
    requires key in app.fields && key != DISABLED && QuietBetween(states, steps, first, last, key, forced)
    requires i in KeptAt(app, states, env, key, v, forced)
    ensures i + 1 in KeptAt(app, states, env, key, v, forced)
  {
    EveryRunKeepsInvariant(app, states, steps, i);
    assert Allowed(app, steps[i]);
    assert states[i + 1] == Next(app, states[i], steps[i]);
    QuietKeeps(app, states[i], steps[i], states[i + 1], env, key, v, forced);
  }

  /** What each place hands on to the next reaches the last. */
  lemma {:induction false} HandedOn(kept: set<int>, first: int, last: int)
    requires first <= last && first in kept && forall i :: first <= i < last && i in kept ==> i + 1 in kept
    ensures last in kept
    decreases last - first
  {
    if first < last {
      HandedOn(kept, first, last - 1);
    }
  }

  lemma {:induction false} QuietRunKeeps(app: App, states: seq<State>, steps: seq<Step>, first: nat, last: nat,
                                         env: Env, key: Key, v: Leaf, forced: bool)
    requires WellFormedApp(app) && IsRun(app, states, steps) && first <= last < |states|
    requires key in app.fields && key != DISABLED && QuietBetween(states, steps, first, last, key, forced)
    requires first in KeptAt(app, states, env, key, v, forced)
    ensures last in KeptAt(app, states, env, key, v, forced)
  {
    var kept := KeptAt(app, states, env, key, v, forced);
    forall i | first <= i < last && i in kept ensures i + 1 in kept {
      QuietStepKeeps(app, states, steps, first, i, last, env, key, v, forced);
    }
    HandedOn(kept, first, last);
  }

  /** The state after the update. */
  lemma {:induction false} UpdateStepGives(app: App, s: State, edit: Config -> Config, opts: Options, access: Access,
                                           o: Outcome, p: string, next: State)
    requires WellFormedApp(app) && Invariant(app, s) && Allowed(app, Step.Update(edit, opts, access))
    requires s.snapshot.Some? && Typed(app, edit(s.snapshot.value)) && Segments(p) != DISABLED
    requires UpdateOutcome(app, s, edit, opts, access) == Ok(o) && LawApplies(app, s, edit, opts, o, p)
    requires next == AfterUpdate(app, s, edit, opts, access)
    ensures var v := o.published[Segments(p)];
            && Kept(app, next, s.env, Segments(p), v, opts.mode == FORCE_FILE)
            && (opts.mode != FORCE_FILE && InEnv(app, s.env, Segments(p), v) ==> Fixes(app, Segments(p), v))
  {
    StepIsUpdate(app, s, edit, opts, access, o);
    UpdateGives(app, access, s.file, s.env, edit(s.snapshot.value), Options(Normalize(opts.paths), opts.mode), o, p);
    assert next.file == FileAfter(o, s.file) && next.env == s.env && !next.stale;
  }

  lemma {:induction false} KeptIsLoaded(app: App, s: State, env: Env, key: Key, v: Leaf, forced: bool, c: Config)
    requires WellFormedApp(app) && PlainDisabled(s.file) && key in app.fields && key != DISABLED
    requires HasType(v, app.fields[key].ty) && PlainLeaf(v) && Fixes(app, key, Canon(v))
    requires Kept(app, s, env, key, v, forced) && (!forced && InEnv(app, env, key, v) ==> Fixes(app, key, v))
    requires Rebuild(app, s.file, s.env) == Ok(c)
    ensures Canon(c[key]) == Canon(v)
  {
    if forced {
      CanonTwice(v);
      FromFile(app, s.file, s.env, key, v, c);
    } else {
      GivenIsLoaded(app, s.file, env, key, v, c);
    }
  }

  /** The same for a place of a run. */
  lemma {:induction false} KeptPlaceIsLoaded(app: App, states: seq<State>, steps: seq<Step>, i: nat, env: Env, key: Key,
                                             v: Leaf, forced: bool, c: Config)
    requires WellFormedApp(app) && IsRun(app, states, steps) && i < |states| && key in app.fields && key != DISABLED
    requires HasType(v, app.fields[key].ty) && PlainLeaf(v) && Fixes(app, key, Canon(v))
    requires i in KeptAt(app, states, env, key, v, forced)
    requires !forced && InEnv(app, env, key, v) ==> Fixes(app, key, v)
    requires Rebuild(app, states[i].file, states[i].env) == Ok(c)
    ensures Canon(c[key]) == Canon(v)
  {
    EveryRunKeepsInvariant(app, states, steps, i);
    KeptIsLoaded(app, states[i], env, key, v, forced, c);
  }

  lemma {:induction false} QuietPlaceIsLoaded(app: App, states: seq<State>, steps: seq<Step>, first: nat, last: nat,
                                              env: Env, key: Key, v: Leaf, forced: bool, c: Config)
    requires WellFormedApp(app) && IsRun(app, states, steps) && first <= last < |states|
    requires key in app.fields && key != DISABLED && QuietBetween(states, steps, first, last, key, forced)
    requires HasType(v, app.fields[key].ty) && PlainLeaf(v) && Fixes(app, key, Canon(v))
    requires first in KeptAt(app, states, env, key, v, forced)
    requires !forced && InEnv(app, env, key, v) ==> Fixes(app, key, v)
    requires Rebuild(app, states[last].file, states[last].env) == Ok(c)
    ensures Canon(c[key]) == Canon(v)
  {
    QuietRunKeeps(app, states, steps, first, last, env, key, v, forced);
    KeptPlaceIsLoaded(app, states, steps, last, env, key, v, forced, c);
  }

  /** An update of a run for which the law holds: it persisted the value at the path. */
  ghost predicate Persisted(app: App, states: seq<State>, steps: seq<Step>, k: nat, o: Outcome, p: string)
    requires WellFormedApp(app) && IsRun(app, states, steps) && k < |steps|
  {
    && steps[k].Update? && states[k].snapshot.Some? && Typed(app, steps[k].edit(states[k].snapshot.value))
    && UpdateOutcome(app, states[k], steps[k].edit, steps[k].opts, steps[k].access) == Ok(o)
    && LawApplies(app, states[k], steps[k].edit, steps[k].opts, o, p) && Segments(p) != DISABLED
  }

  lemma {:induction false} PersistedIsKept(app: App, states: seq<State>, steps: seq<Step>, k: nat, o: Outcome,
                                           p: string, env: Env, key: Key, v: Leaf, forced: bool, first: nat)
    requires WellFormedApp(app) && IsRun(app, states, steps) && k < |steps| && Persisted(app, states, steps, k, o, p)
    requires key == Segments(p) && v == o.published[key] && forced == (steps[k].opts.mode == FORCE_FILE)
    requires env == states[k].env && first == k + 1
    ensures first in KeptAt(app, states, env, key, v, forced)
    ensures !forced && InEnv(app, env, key, v) ==> Fixes(app, key, v)
  {
    EveryRunKeepsInvariant(app, states, steps, k);
    assert Allowed(app, steps[k]);
    assert states[k + 1] == Next(app, states[k], steps[k]);
    UpdateStepGives(app, states[k], steps[k].edit, steps[k].opts, steps[k].access, o, p, states[k + 1]);
  }

  lemma {:induction false} PersistedIsSettled(app: App, states: seq<State>, steps: seq<Step>, k: nat, o: Outcome,
                                              p: string)
    requires WellFormedApp(app) && IsRun(app, states, steps) && k < |steps|
    requires Persisted(app, states, steps, k, o, p)
    ensures Segments(p) in app.fields && Segments(p) in o.published && Segments(p) != DISABLED
    ensures var key, v := Segments(p), o.published[Segments(p)];
            HasType(v, app.fields[key].ty) && PlainLeaf(v) && Fixes(app, key, Canon(v))
  {
  }

  /** A value that an update persisted is what any later reload gives, however many steps later, as long as every step
      in between is quiet for the field. */
  lemma {:induction false} PersistedValueStays(app: App, states: seq<State>, steps: seq<Step>, k: nat, m: nat,
                                               o: Outcome, p: string, c: Config)
    requires WellFormedApp(app) && IsRun(app, states, steps) && k < m < |states|
    requires Persisted(app, states, steps, k, o, p)
    requires QuietBetween(states, steps, k + 1, m, Segments(p), steps[k].opts.mode == FORCE_FILE)
    requires Rebuild(app, states[m].file, states[m].env) == Ok(c)
    ensures Segments(p) in c && Segments(p) in o.published
    ensures Canon(c[Segments(p)]) == Canon(o.published[Segments(p)])
  {
    PersistedIsSettled(app, states, steps, k, o, p);
    var key, v, forced := Segments(p), o.published[Segments(p)], steps[k].opts.mode == FORCE_FILE;
    var env, first := states[k].env, k + 1;
    PersistedIsKept(app, states, steps, k, o, p, env, key, v, forced, first);
    QuietPlaceIsLoaded(app, states, steps, first, m, env, key, v, forced, c);
  }
}
