/** The executor manager as a state machine: Execute, Reload and Shutdown calls interleave step by step over a
    swapped map of pools. Every call is a thread of its own. */
module ExecutorPools {
  import opened Text

  type PoolId = nat

  type ThreadId = nat

  /** A pool configuration: its name, and whether creating the pool succeeds. */
  datatype Config = Config(name: string, valid: bool)

  datatype Outcome =
    | Refused        // the manager was closed
    | NotFound
    | Overloaded
    | Accepted(pool: PoolId)
    | Failed         // a reload that could not build its pools
    | Reloaded
    | ShutDown

  /** Where a call stands. */
  datatype Thread =
    | Checked(name: string)                                        // Execute after its closed check
    | Holding(pool: PoolId)                                        // Execute after its map read
    | Building(rest: seq<Config>, built: map<string, PoolId>)      // Reload after its closed check
    | Stored                                                       // Shutdown after its store
    | Releasing(pools: set<PoolId>, outcome: Outcome)
    | Finished(outcome: Outcome)

  /** The manager, the calls in flight, and how often each pool was released. */
  datatype State = State(
    closed: bool,
    live: map<string, PoolId>,
    next: nat,
    released: multiset<PoolId>,
    threads: map<ThreadId, Thread>)

  datatype Action =
    | StartExecute(t: ThreadId, name: string)
    | ReadMap(t: ThreadId)
    | Submit(t: ThreadId, full: bool)
    | StartReload(t: ThreadId, configs: seq<Config>)
    | BuildNext(t: ThreadId)
    | Swap(t: ThreadId)
    | StartShutdown(t: ThreadId)
    | Empty(t: ThreadId)
    | ReleaseOne(t: ThreadId, pool: PoolId)
    | FinishRelease(t: ThreadId)

  function Put(s: State, t: ThreadId, th: Thread): State {
    s.(threads := s.threads[t := th])
  }

  predicate At(s: State, t: ThreadId, th: Thread) {
    t in s.threads && s.threads[t] == th
  }

  /** One step of a Reload that is building: the next configuration either gives a pool or fails the call. */
  function Build(s: State, t: ThreadId, rest: seq<Config>, built: map<string, PoolId>): State
    requires rest != []
  {
    if rest[0].name in built || !rest[0].valid then Put(s, t, Releasing(built.Values, Failed))
    else Put(s, t, Building(rest[1..], built[rest[0].name := s.next])).(next := s.next + 1)
  }

  /** What an action does; None where it cannot happen. */
  function Step(s: State, a: Action): Option<State> {
    match a
    case StartExecute(t, name) =>
      if t in s.threads then None
      else Some(Put(s, t, if s.closed then Finished(Refused) else Checked(name)))
    case StartReload(t, configs) =>
      if t in s.threads then None
      else Some(Put(s, t, if s.closed then Finished(Refused) else Building(configs, map[])))
    case StartShutdown(t) =>
      if t in s.threads then None else Some(Put(s, t, Stored).(closed := true))
    case _ => if a.t !in s.threads then None else Continue(s, a, s.threads[a.t])
  }

  /** What an action does to a call that has started. */
  function Continue(s: State, a: Action, th: Thread): Option<State> {
    match (a, th)
    case (ReadMap(t), Checked(name)) =>
      Some(Put(s, t, if name in s.live then Holding(s.live[name]) else Finished(NotFound)))
    case (Submit(t, full), Holding(pool)) =>
      Some(Put(s, t, Finished(if pool in s.released then Refused else if full then Overloaded else Accepted(pool))))
    case (BuildNext(t), Building(rest, built)) =>
      if rest == [] then None else Some(Build(s, t, rest, built))
    case (Swap(t), Building(rest, built)) =>
      if rest != [] then None else Some(Put(s, t, Releasing(s.live.Values, Reloaded)).(live := built))
    case (Empty(t), Stored) =>
      Some(Put(s, t, Releasing(s.live.Values, ShutDown)).(live := map[]))
    case (ReleaseOne(t, pool), Releasing(pools, outcome)) =>
      if pool !in pools then None
      else Some(Put(s, t, Releasing(pools - {pool}, outcome)).(released := s.released + multiset{pool}))
    case (FinishRelease(t), Releasing(pools, outcome)) =>
      if pools != {} then None else Some(Put(s, t, Finished(outcome)))
    case _ => None
  }

  function Run(s: State, actions: seq<Action>): Option<State>
    decreases |actions|
  {
    if actions == [] then Some(s)
    else
      match Step(s, actions[0])
      case None => None
      case Some(next) => Run(next, actions[1..])
  }

  /** A manager whose pools were just created. */
  ghost predicate Initial(s: State) {
    && !s.closed && s.released == multiset{} && s.threads == map[]
    && Injective(s.live) && forall p: PoolId :: p in s.live.Values <==> p < s.next
  }

  predicate Injective(m: map<string, PoolId>) {
    forall a, b :: a in m && b in m && m[a] == m[b] ==> a == b
  }

  /** NewManager: a loop that creates the pools one by one. At a repeated name or a bad configuration it gives up and
      releases every pool that it has created. */
  method NewManager(configs: seq<Config>) returns (r: Option<State>, created: nat, released: set<PoolId>)
    ensures r.Some? <==> configs != [] && Buildable(configs, {})
    ensures r.Some? ==>
            Initial(r.value) && r.value.live.Keys == Names(configs) && r.value.next == created && released == {}
    ensures r.None? ==> forall p: PoolId :: p in released <==> p < created
  {
    created, released := 0, {};
    if |configs| == 0 {
      return None, created, released;
    }
    var pools: map<string, PoolId> := map[];
    assert configs[0..] == configs && configs[..0] == [] && pools.Keys == {};
    for i := 0 to |configs|
      invariant created == i
      invariant Injective(pools) && (forall p: PoolId :: p in pools.Values <==> p < i)
      invariant pools.Keys == Names(configs[..i])
      invariant Buildable(configs, {}) <==> Buildable(configs[i..], pools.Keys)
    {
      var cfg := configs[i];
      assert configs[i..][0] == cfg && configs[i..][1..] == configs[i + 1..];
      if cfg.name in pools || !cfg.valid {
        return None, created, pools.Values;
      }
      ValuesAdded(pools, cfg.name, i);
      NamesNext(configs, i);
      assert pools[cfg.name := i].Keys == pools.Keys + {cfg.name};
      pools := pools[cfg.name := created];
      created := created + 1;
    }
    assert configs[..|configs|] == configs && configs[|configs|..] == [];
    return Some(State(false, pools, created, multiset{}, map[])), created, {};
  }

  function Names(configs: seq<Config>): set<string> {
    set i | 0 <= i < |configs| :: configs[i].name
  }

  lemma NamesNext(configs: seq<Config>, i: nat)
    requires i < |configs|
    ensures Names(configs[..i + 1]) == Names(configs[..i]) + {configs[i].name}
  {
    var longer := configs[..i + 1];
    forall n | n in Names(longer) ensures n in Names(configs[..i]) + {configs[i].name} {
      var j :| 0 <= j < |longer| && longer[j].name == n;
      if j < i {
        assert configs[..i][j].name == n;
      }
    }
    forall n | n in Names(configs[..i]) ensures n in Names(longer) {
      var j :| 0 <= j < i && configs[..i][j].name == n;
      assert longer[j].name == n;
    }
    assert longer[i].name == configs[i].name;
  }

  // ---------------------------------------------------------------- ownership

  /** Who is responsible for a pool. */
  datatype Owner = Live | Call(t: ThreadId) | Gone

  /** The pools that a call has to release or to install. */
  function Held(th: Thread): set<PoolId> {
    match th
    case Building(_, built) => built.Values
    case Releasing(pools, _) => pools
    case _ => {}
  }

  predicate Owns(s: State, o: Owner, p: PoolId) {
    match o
    case Live => p in s.live.Values
    case Call(t) => t in s.threads && p in Held(s.threads[t])
    case Gone => p in s.released
  }

  ghost predicate HasOwner(s: State, p: PoolId) {
    exists o :: Owns(s, o, p)
  }

  /** The ledger says who owns each pool that was created, and nobody else has it. */
  ghost predicate Tracks(s: State, w: map<PoolId, Owner>) {
    && (forall p: PoolId :: p in w <==> p < s.next)
    && (forall p: PoolId, o :: Owns(s, o, p) <==> p in w && w[p] == o)
    && OncePerOwner(s)
  }

  /** Within its owner a pool stands once: under one name, or released once. */
  ghost predicate OncePerOwner(s: State) {
    && (forall p :: s.released[p] <= 1)
    && Injective(s.live)
    && (forall t :: t in s.threads && s.threads[t].Building? ==> Injective(s.threads[t].built))
  }

  /** The ledger after an action. */
  function Entered(s: State, w: map<PoolId, Owner>, a: Action): map<PoolId, Owner> {
    match a
    case BuildNext(t) =>
      if t in s.threads && s.threads[t].Building? && s.threads[t].rest != [] &&
         !(s.threads[t].rest[0].name in s.threads[t].built || !s.threads[t].rest[0].valid)
      then w[s.next := Call(t)] else w
    case Swap(t) => map p | p in w :: if w[p] == Live then Call(t) else if w[p] == Call(t) then Live else w[p]
    case Empty(t) => map p | p in w :: if w[p] == Live then Call(t) else w[p]
    case ReleaseOne(t, pool) => w[pool := Gone]
    case _ => w
  }

  /** A step that leaves every holding as it was. */
  lemma SameHoldings(s: State, w: map<PoolId, Owner>, t: ThreadId, th: Thread, closed: bool)
    requires Tracks(s, w) && Held(th) == (if t in s.threads then Held(s.threads[t]) else {})
    requires th.Building? ==> Injective(th.built)
    ensures Tracks(Put(s, t, th).(closed := closed), w)
  {
    var s' := Put(s, t, th).(closed := closed);
    forall p, o ensures Owns(s', o, p) <==> Owns(s, o, p) {
    }
  }

  lemma ValuesAdded(m: map<string, PoolId>, name: string, p: PoolId)
    requires name !in m
    ensures m[name := p].Values == m.Values + {p}
  {
    var m' := m[name := p];
    forall q | q in m.Values ensures q in m'.Values {
      var k :| k in m && m[k] == q;
      assert m'[k] == q;
    }
    assert m'[name] == p;
  }

  lemma BuiltTracks(s: State, w: map<PoolId, Owner>, t: ThreadId, name: string, rest: seq<Config>)
    requires Tracks(s, w) && t in s.threads && s.threads[t].Building? && name !in s.threads[t].built
    ensures Tracks(Put(s, t, Building(rest, s.threads[t].built[name := s.next])).(next := s.next + 1),
                   w[s.next := Call(t)])
  {
    var built := s.threads[t].built;
    var s', w' := Put(s, t, Building(rest, built[name := s.next])).(next := s.next + 1), w[s.next := Call(t)];
    ValuesAdded(built, name, s.next);
    forall p, o ensures Owns(s', o, p) <==> p in w' && w'[p] == o {
      assert Owns(s, o, p) <==> p in w && w[p] == o;
    }
    forall p | p in built.Values ensures p != s.next {
      assert Owns(s, Call(t), p);
    }
  }

  lemma SwapTracks(s: State, w: map<PoolId, Owner>, t: ThreadId)
    requires Tracks(s, w) && t in s.threads && s.threads[t].Building?
    ensures Tracks(Put(s, t, Releasing(s.live.Values, Reloaded)).(live := s.threads[t].built), Entered(s, w, Swap(t)))
  {
    var s', w' := Put(s, t, Releasing(s.live.Values, Reloaded)).(live := s.threads[t].built), Entered(s, w, Swap(t));
    forall p, o ensures Owns(s', o, p) <==> p in w' && w'[p] == o {
      assert Owns(s, o, p) <==> p in w && w[p] == o;
      assert Owns(s, Live, p) <==> p in w && w[p] == Live;
      assert Owns(s, Call(t), p) <==> p in w && w[p] == Call(t);
    }
  }

  lemma EmptyTracks(s: State, w: map<PoolId, Owner>, t: ThreadId)
    requires Tracks(s, w) && At(s, t, Stored)
    ensures Tracks(Put(s, t, Releasing(s.live.Values, ShutDown)).(live := map[]), Entered(s, w, Empty(t)))
  {
    var s', w' := Put(s, t, Releasing(s.live.Values, ShutDown)).(live := map[]), Entered(s, w, Empty(t));
    forall p, o ensures Owns(s', o, p) <==> p in w' && w'[p] == o {
      assert Owns(s, o, p) <==> p in w && w[p] == o;
      assert Owns(s, Live, p) <==> p in w && w[p] == Live;
      assert Owns(s, Call(t), p) <==> p in w && w[p] == Call(t);
    }
  }

  lemma ReleaseTracks(s: State, w: map<PoolId, Owner>, t: ThreadId, pools: set<PoolId>, outcome: Outcome, pool: PoolId)
    requires Tracks(s, w) && At(s, t, Releasing(pools, outcome)) && pool in pools
    ensures Tracks(Put(s, t, Releasing(pools - {pool}, outcome)).(released := s.released + multiset{pool}),
                   w[pool := Gone])
  {
    var s' := Put(s, t, Releasing(pools - {pool}, outcome)).(released := s.released + multiset{pool});
    var w' := w[pool := Gone];
    assert Owns(s, Call(t), pool);
    forall p, o ensures Owns(s', o, p) <==> p in w' && w'[p] == o {
      assert Owns(s, o, p) <==> p in w && w[p] == o;
    }
    assert !Owns(s, Gone, pool);
  }

  /** Every step keeps the ledger. */
  lemma StepTracks(s: State, w: map<PoolId, Owner>, a: Action)
    requires Tracks(s, w) && Step(s, a).Some?
    ensures Tracks(Step(s, a).value, Entered(s, w, a))
  {
    var s' := Step(s, a).value;
    match a
    case StartExecute(t, name) => SameHoldings(s, w, t, s'.threads[t], s.closed);
    case StartReload(t, configs) => SameHoldings(s, w, t, s'.threads[t], s.closed);
    case StartShutdown(t) => SameHoldings(s, w, t, Stored, true);
    case ReadMap(t) => SameHoldings(s, w, t, s'.threads[t], s.closed);
    case Submit(t, full) => SameHoldings(s, w, t, s'.threads[t], s.closed);
    case BuildNext(t) =>
      var rest, built := s.threads[t].rest, s.threads[t].built;
      if rest[0].name in built || !rest[0].valid {
        SameHoldings(s, w, t, Releasing(built.Values, Failed), s.closed);
      } else {
        BuiltTracks(s, w, t, rest[0].name, rest[1..]);
      }
    case Swap(t) => SwapTracks(s, w, t);
    case Empty(t) => EmptyTracks(s, w, t);
    case ReleaseOne(t, pool) => ReleaseTracks(s, w, t, s.threads[t].pools, s.threads[t].outcome, pool);
    case FinishRelease(t) => SameHoldings(s, w, t, s'.threads[t], s.closed);
  }

  function FirstLedger(s: State): map<PoolId, Owner> {
    map p | p in s.live.Values :: Live
  }

  lemma InitialTracks(s: State)
    requires Initial(s)
    ensures Tracks(s, FirstLedger(s))
  {
    var w := FirstLedger(s);
    forall p: PoolId ensures p in w <==> p < s.next {
    }
    forall p: PoolId, o ensures Owns(s, o, p) <==> p in w && w[p] == o {
    }
  }

  lemma {:induction false} RunTracks(s: State, w: map<PoolId, Owner>, actions: seq<Action>)
    returns (end: map<PoolId, Owner>)
    requires Tracks(s, w) && Run(s, actions).Some?
    ensures Tracks(Run(s, actions).value, end)
    decreases |actions|
  {
    if actions == [] {
      end := w;
    } else {
      StepTracks(s, w, actions[0]);
      end := RunTracks(Step(s, actions[0]).value, Entered(s, w, actions[0]), actions[1..]);
    }
  }

  /** In every run, every pool that was ever created has exactly one owner (the live map, one call, or the past)
      and stands there once; nothing else is owned; no pool is released twice. */
  lemma EveryPoolHasOneOwner(s: State, actions: seq<Action>)
    requires Initial(s) && Run(s, actions).Some?
    ensures var end := Run(s, actions).value;
            && (forall p: PoolId, o :: Owns(end, o, p) ==> p < end.next)
            && (forall p: PoolId :: p < end.next ==> HasOwner(end, p))
            && (forall p: PoolId, o, q :: Owns(end, o, p) && Owns(end, q, p) ==> o == q)
            && OncePerOwner(end)
  {
    InitialTracks(s);
    var w := RunTracks(s, FirstLedger(s), actions);
    var end := Run(s, actions).value;
    forall p: PoolId | p < end.next ensures HasOwner(end, p) {
      assert Owns(end, w[p], p);
    }
  }

  /** When all calls are over and the live map is empty, every pool that was created was released exactly once. */
  lemma NothingLeaks(s: State, actions: seq<Action>)
    requires Initial(s) && Run(s, actions).Some?
    requires var end := Run(s, actions).value;
             end.live == map[] && forall t :: t in end.threads ==> end.threads[t].Finished?
    ensures var end := Run(s, actions).value;
            forall p: PoolId :: end.released[p] == if p < end.next then 1 else 0
  {
    EveryPoolHasOneOwner(s, actions);
    var end := Run(s, actions).value;
    forall p: PoolId ensures end.released[p] == if p < end.next then 1 else 0 {
      if p < end.next {
        assert HasOwner(end, p);
        var o :| Owns(end, o, p);
        assert o.Gone?;
      } else {
        assert !Owns(end, Gone, p);
      }
    }
  }

  // ---------------------------------------------------------------- who may change the live map

  /** The call has replaced the live map. */
  predicate Committed(s: State, t: ThreadId) {
    t in s.threads &&
    match s.threads[t]
    case Releasing(_, outcome) => outcome == Reloaded || outcome == ShutDown
    case Finished(outcome) => outcome == Reloaded || outcome == ShutDown
    case _ => false
  }

  lemma StepKeepsCommitted(s: State, a: Action, t: ThreadId)
    requires Step(s, a).Some? && Committed(s, t)
    ensures Committed(Step(s, a).value, t)
  {
  }

  lemma {:induction false} RunKeepsCommitted(s: State, actions: seq<Action>, t: ThreadId)
    requires Run(s, actions).Some? && Committed(s, t)
    ensures Committed(Run(s, actions).value, t)
    decreases |actions|
  {
    if actions != [] {
      StepKeepsCommitted(s, actions[0], t);
      RunKeepsCommitted(Step(s, actions[0]).value, actions[1..], t);
    }
  }

  lemma LiveChangeCommits(s: State, a: Action)
    requires Step(s, a).Some? && Step(s, a).value.live != s.live
    ensures Committed(Step(s, a).value, a.t)
  {
  }

  /** A call that does not end as a completed reload or shutdown has never changed the live map: whatever the
      run before, between and after, a failed or refused Reload leaves the map as it found it at each of its steps. */
  lemma FailedCallsKeepLive(s: State, a: Action, after: seq<Action>)
    requires Step(s, a).Some? && Run(Step(s, a).value, after).Some?
    requires !Committed(Run(Step(s, a).value, after).value, a.t)
    ensures Step(s, a).value.live == s.live
  {
    if Step(s, a).value.live != s.live {
      LiveChangeCommits(s, a);
      RunKeepsCommitted(Step(s, a).value, after, a.t);
    }
  }

  // ---------------------------------------------------------------- after the store

  lemma {:induction false} ClosedStays(s: State, actions: seq<Action>)
    requires s.closed && Run(s, actions).Some?
    ensures Run(s, actions).value.closed
    decreases |actions|
  {
    if actions != [] {
      ClosedStays(Step(s, actions[0]).value, actions[1..]);
    }
  }

  lemma {:induction false} FinishedStays(s: State, actions: seq<Action>, t: ThreadId)
    requires t in s.threads && s.threads[t].Finished? && Run(s, actions).Some?
    ensures At(Run(s, actions).value, t, s.threads[t])
    decreases |actions|
  {
    if actions != [] {
      FinishedStays(Step(s, actions[0]).value, actions[1..], t);
    }
  }

  /** Any Execute or Reload whose closed check comes after the store of a Shutdown is refused for good, and does
      nothing else. */
  lemma RefusedAfterStore(s: State, shutdown: ThreadId, between: seq<Action>, start: Action, after: seq<Action>)
    requires start.StartExecute? || start.StartReload?
    requires Step(s, StartShutdown(shutdown)).Some?
    requires var stored := Step(s, StartShutdown(shutdown)).value;
             Run(stored, between).Some? && Step(Run(stored, between).value, start).Some? &&
             Run(Step(Run(stored, between).value, start).value, after).Some?
    ensures var stored := Step(s, StartShutdown(shutdown)).value;
            var here := Run(stored, between).value;
            && Step(here, start) == Some(Put(here, start.t, Finished(Refused)))
            && At(Run(Step(here, start).value, after).value, start.t, Finished(Refused))
  {
    var stored := Step(s, StartShutdown(shutdown)).value;
    ClosedStays(stored, between);
    var here := Run(stored, between).value;
    FinishedStays(Step(here, start).value, after, start.t);
  }

  // ---------------------------------------------------------------- late reloads

  /** The configurations can all be built on top of what was built. */
  predicate Buildable(rest: seq<Config>, names: set<string>)
    decreases |rest|
  {
    rest == [] || (rest[0].valid && rest[0].name !in names && Buildable(rest[1..], names + {rest[0].name}))
  }

  /** A Reload that passed its closed check and will install at least one pool if it is left to run. */
  predicate MayInstall(th: Thread) {
    th.Building? && Buildable(th.rest, th.built.Keys) && (th.rest != [] || th.built != map[])
  }

  predicate NoneMayInstall(s: State) {
    forall t :: t in s.threads ==> !MayInstall(s.threads[t])
  }

  lemma StepStaysEmpty(s: State, a: Action)
    requires s.closed && s.live == map[] && NoneMayInstall(s) && Step(s, a).Some?
    ensures var s' := Step(s, a).value; s'.closed && s'.live == map[] && NoneMayInstall(s')
  {
    var s' := Step(s, a).value;
    if a.BuildNext? {
      var th := s.threads[a.t];
      assert !MayInstall(th);
      assert th.built[th.rest[0].name := s.next].Keys == th.built.Keys + {th.rest[0].name};
    } else if a.Swap? {
      assert !MayInstall(s.threads[a.t]);
    }
    forall t | t in s'.threads ensures !MayInstall(s'.threads[t]) {
      if t != a.t {
        assert s'.threads[t] == s.threads[t];
      }
    }
  }

  lemma {:induction false} RunStaysEmpty(s: State, actions: seq<Action>)
    requires s.closed && s.live == map[] && NoneMayInstall(s) && Run(s, actions).Some?
    ensures Run(s, actions).value.live == map[]
    decreases |actions|
  {
    if actions != [] {
      StepStaysEmpty(s, actions[0]);
      RunStaysEmpty(Step(s, actions[0]).value, actions[1..]);
    }
  }

  /** The steps that bring a building Reload to its swap. */
  function Completion(t: ThreadId, rest: seq<Config>): seq<Action> {
    if rest == [] then [Swap(t)] else [BuildNext(t)] + Completion(t, rest[1..])
  }

  lemma {:induction false} CompletionInstalls(s: State, t: ThreadId, rest: seq<Config>, built: map<string, PoolId>)
    requires At(s, t, Building(rest, built)) && Buildable(rest, built.Keys) && (rest != [] || built != map[])
    ensures Run(s, Completion(t, rest)).Some? && Run(s, Completion(t, rest)).value.live != map[]
    decreases |rest|
  {
    var actions := Completion(t, rest);
    if rest == [] {
      assert actions[1..] == [];
      assert Step(s, Swap(t)).value.live == built;
    } else {
      var more := built[rest[0].name := s.next];
      assert more.Keys == built.Keys + {rest[0].name};
      assert rest[0].name in more;
      assert actions[1..] == Completion(t, rest[1..]);
      CompletionInstalls(Build(s, t, rest, built), t, rest[1..], more);
    }
  }

  /** Once the manager is closed and its map is empty, the map stays empty in every continuation exactly when no
      Reload is still under way that can build all its pools. */
  lemma EmptyForeverExactly(s: State)
    requires s.closed && s.live == map[]
    ensures (forall actions :: Run(s, actions).Some? ==> Run(s, actions).value.live == map[]) <==> NoneMayInstall(s)
  {
    if NoneMayInstall(s) {
      forall actions | Run(s, actions).Some? ensures Run(s, actions).value.live == map[] {
        RunStaysEmpty(s, actions);
      }
    } else {
      var t :| t in s.threads && MayInstall(s.threads[t]);
      CompletionInstalls(s, t, s.threads[t].rest, s.threads[t].built);
    }
  }

  /** A manager with one pool. */
  const ONE_POOL := State(false, map["a" := 0], 1, multiset{}, map[])

  lemma {:induction false} OnePoolIsInitial()
    ensures Initial(ONE_POOL) && ONE_POOL.live.Values == {0} && ONE_POOL.live != map[]
  {
    assert ONE_POOL.live["a"] == 0;
    forall p: PoolId ensures p in ONE_POOL.live.Values <==> p < 1 {
    }
  }

  /** A Reload that passed its closed check before the Shutdown installs its pool after the Shutdown is over:
      nobody will release it, although the manager is closed. */
  lemma {:induction false} LateReloadInstalls() returns (actions: seq<Action>)
    ensures Initial(ONE_POOL) && ONE_POOL.live != map[] && Run(ONE_POOL, actions).Some?
    ensures var end := Run(ONE_POOL, actions).value;
            end.closed && At(end, 1, Finished(ShutDown)) && end.live != map[]
  {
    OnePoolIsInitial();
    actions := LateFrom(ONE_POOL, [Config("late", true)]);
  }

  lemma {:induction false} LateFrom(s: State, configs: seq<Config>) returns (actions: seq<Action>)
    requires !s.closed && s.threads == map[] && s.released == multiset{} && s.live.Values == {0}
    requires configs != [] && Buildable(configs, {})
    ensures Run(s, actions).Some?
    ensures var end := Run(s, actions).value;
            end.closed && At(end, 1, Finished(ShutDown)) && end.live != map[]
  {
    var s1 := Put(s, 0, Building(configs, map[]));
    var s2 := Put(s1, 1, Stored).(closed := true);
    var s3 := Put(s2, 1, Releasing({0}, ShutDown)).(live := map[]);
    var s4 := Put(s3, 1, Releasing({}, ShutDown)).(released := multiset{0});
    var s5 := Put(s4, 1, Finished(ShutDown));
    LateSteps(s, s1, s2, s3, s4, s5, configs);
    LateTail(s5, configs);
    actions := LateRun(s, s1, s2, s3, s4, s5, configs, Completion(0, configs));
  }

  lemma {:induction false} LateRun(s: State, s1: State, s2: State, s3: State, s4: State, s5: State,
                                   configs: seq<Config>, tail: seq<Action>)
    returns (actions: seq<Action>)
    requires Step(s, StartReload(0, configs)) == Some(s1) && Step(s1, StartShutdown(1)) == Some(s2)
    requires Step(s2, Empty(1)) == Some(s3) && Step(s3, ReleaseOne(1, 0)) == Some(s4) &&
             Step(s4, FinishRelease(1)) == Some(s5)
    ensures Run(s, actions) == Run(s5, tail)
  {
    actions := Before(s4, FinishRelease(1), s5, tail);
    actions := Before(s3, ReleaseOne(1, 0), s4, actions);
    actions := Before(s2, Empty(1), s3, actions);
    actions := Before(s1, StartShutdown(1), s2, actions);
    actions := Before(s, StartReload(0, configs), s1, actions);
  }

  lemma {:induction false} LateTail(s: State, configs: seq<Config>)
    requires s.closed && At(s, 1, Finished(ShutDown)) && At(s, 0, Building(configs, map[])) && configs != [] &&
             Buildable(configs, {})
    ensures Run(s, Completion(0, configs)).Some?
    ensures var end := Run(s, Completion(0, configs)).value;
            end.closed && At(end, 1, Finished(ShutDown)) && end.live != map[]
  {
    var none: map<string, PoolId> := map[];
    assert none.Keys == {};
    CompletionInstalls(s, 0, configs, map[]);
    ClosedStays(s, Completion(0, configs));
    FinishedStays(s, Completion(0, configs), 1);
  }

  lemma {:induction false} LateSteps(s: State, s1: State, s2: State, s3: State, s4: State, s5: State,
                                     configs: seq<Config>)
    requires !s.closed && s.threads == map[] && s.released == multiset{} && s2.live.Values == {0}
    requires s1 == Put(s, 0, Building(configs, map[])) && s2 == Put(s1, 1, Stored).(closed := true)
    requires s3 == Put(s2, 1, Releasing({0}, ShutDown)).(live := map[])
    requires s4 == Put(s3, 1, Releasing({}, ShutDown)).(released := multiset{0}) && s5 == Put(s4, 1, Finished(ShutDown))
    ensures Step(s, StartReload(0, configs)) == Some(s1) && Step(s1, StartShutdown(1)) == Some(s2)
    ensures Step(s2, Empty(1)) == Some(s3) && Step(s3, ReleaseOne(1, 0)) == Some(s4) &&
            Step(s4, FinishRelease(1)) == Some(s5)
  {
    assert {0} - {0} == {};
    assert s3.released + multiset{0} == multiset{0};
  }

  /** One step more at the start of a run. */
  lemma {:induction false} Before(s: State, a: Action, next: State, rest: seq<Action>) returns (actions: seq<Action>)
    requires Step(s, a) == Some(next)
    ensures Run(s, actions) == Run(next, rest)
  {
    actions := [a] + rest;
    assert actions[1..] == rest;
  }
}
