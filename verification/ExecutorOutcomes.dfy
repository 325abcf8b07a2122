/** How an Execute call ends, by what the manager was like at its three moments: its check, its read of the map, and its
    submit. */
module ExecutorOutcomes {
  import opened Text
  import opened ExecutorPools

  // ---------------------------------------------------------------- runs with their states

  /** The states that a run of actions goes through. */
  ghost predicate IsTrace(states: seq<State>, actions: seq<Action>) {
    && |states| == |actions| + 1
    && forall i {:trigger actions[i]} :: 0 <= i < |actions| ==> Step(states[i], actions[i]) == Some(states[i + 1])
  }

  /** Every run has its states. */
  lemma {:induction false} RunHasTrace(s: State, actions: seq<Action>) returns (states: seq<State>)
    requires Run(s, actions).Some?
    ensures IsTrace(states, actions) && states[0] == s && states[|actions|] == Run(s, actions).value
    decreases |actions|
  {
    if actions == [] {
      states := [s];
    } else {
      var next := Step(s, actions[0]).value;
      var rest := RunHasTrace(next, actions[1..]);
      states := [s] + rest;
      forall i | 0 <= i < |actions| ensures Step(states[i], actions[i]) == Some(states[i + 1]) {
        if i > 0 {
          assert actions[1..][i - 1] == actions[i];
        }
      }
    }
  }

  /** The states of a trace are those of the run. */
  lemma {:induction false} TraceIsRun(states: seq<State>, actions: seq<Action>)
    requires IsTrace(states, actions)
    ensures Run(states[0], actions) == Some(states[|actions|])
    decreases |actions|
  {
    if actions != [] {
      forall i | 0 <= i < |actions[1..]| ensures Step(states[1..][i], actions[1..][i]) == Some(states[1..][i + 1]) {
        assert actions[1..][i] == actions[i + 1];
      }
      assert actions[0] == actions[0];
      TraceIsRun(states[1..], actions[1..]);
    }
  }

  // ---------------------------------------------------------------- the moments of a call

  /** The call is started at that place of the run: this is its closed check. */
  ghost predicate Starts(states: seq<State>, actions: seq<Action>, k: nat, t: ThreadId, name: string) {
    IsTrace(states, actions) && k < |actions| && actions[k] == StartExecute(t, name)
  }

  /** The call reads the map at that place and finds the pool under the name. */
  ghost predicate Finds(states: seq<State>, actions: seq<Action>, t: ThreadId, i: nat, name: string, pool: PoolId)
    requires IsTrace(states, actions)
  {
    i < |actions| && actions[i] == ReadMap(t) && name in states[i].live && states[i].live[name] == pool
  }

  /** The call reads the map at that place and does not find the name. */
  ghost predicate Misses(states: seq<State>, actions: seq<Action>, t: ThreadId, i: nat, name: string)
    requires IsTrace(states, actions)
  {
    i < |actions| && actions[i] == ReadMap(t) && name !in states[i].live
  }

  /** The call submits at that place. */
  ghost predicate Submits(actions: seq<Action>, t: ThreadId, j: nat, full: bool) {
    j < |actions| && actions[j] == Submit(t, full)
  }

  /** The manager was open at the check, the pool was the live one of that name at the read, and the submit came
      after that, to a pool that was full or not and had been released or not. */
  ghost predicate Reaches(states: seq<State>, actions: seq<Action>, k: nat, t: ThreadId, name: string, pool: PoolId,
                          i: nat, j: nat, full: bool, gone: bool)
    requires Starts(states, actions, k, t, name)
  {
    && !states[k].closed
    && k < i < j && Finds(states, actions, t, i, name, pool) && Submits(actions, t, j, full)
    && (pool in states[j].released <==> gone)
  }

  // ---------------------------------------------------------------- from the outcome to the moments

  lemma {:induction false} OtherStep(s: State, a: Action, next: State, t: ThreadId)
    requires Step(s, a) == Some(next) && t in s.threads && a.t != t
    ensures t in next.threads && next.threads[t] == s.threads[t]
  {
  }

  /** A call that is past its check was let through by it. */
  lemma {:induction false} CheckedWasOpen(states: seq<State>, actions: seq<Action>, k: nat, t: ThreadId, name: string,
                                          m: nat)
    requires Starts(states, actions, k, t, name) && k < m <= |actions|
    ensures t in states[m].threads
    ensures states[m].threads[t].Checked? ==> states[m].threads[t] == Checked(name) && !states[k].closed
    ensures states[m].threads[t] == Checked(name) || states[m].threads[t].Holding? || states[m].threads[t].Finished?
    decreases m
  {
    assert Step(states[m - 1], actions[m - 1]) == Some(states[m]);
    if m > k + 1 {
      CheckedWasOpen(states, actions, k, t, name, m - 1);
      if actions[m - 1].t != t {
        OtherStep(states[m - 1], actions[m - 1], states[m], t);
      }
    }
  }

  /** A call that holds a pool found it when it read the map. */
  lemma {:induction false} HoldingWasFound(states: seq<State>, actions: seq<Action>, k: nat, t: ThreadId, name: string,
                                           m: nat)
    returns (i: nat)
    requires Starts(states, actions, k, t, name) && k < m <= |actions|
    requires t in states[m].threads && states[m].threads[t].Holding?
    ensures k < i < m && Finds(states, actions, t, i, name, states[m].threads[t].pool) && !states[k].closed
    decreases m
  {
    assert Step(states[m - 1], actions[m - 1]) == Some(states[m]);
    if m > k + 1 {
      CheckedWasOpen(states, actions, k, t, name, m - 1);
      if actions[m - 1].t == t {
        i := m - 1;
      } else {
        OtherStep(states[m - 1], actions[m - 1], states[m], t);
        i := HoldingWasFound(states, actions, k, t, name, m - 1);
      }
    }
  }

  /** What each end of a call goes back to. */
  ghost predicate Explains(states: seq<State>, actions: seq<Action>, k: nat, t: ThreadId, name: string, o: Outcome)
    requires Starts(states, actions, k, t, name)
  {
    match o
    case Accepted(p) => exists i, j :: Reaches(states, actions, k, t, name, p, i, j, false, false)
    case Overloaded => exists p, i, j :: Reaches(states, actions, k, t, name, p, i, j, true, false)
    case NotFound => !states[k].closed && exists i :: k < i && Misses(states, actions, t, i, name)
    case Refused =>
      states[k].closed || exists p, i, j, full :: Reaches(states, actions, k, t, name, p, i, j, full, true)
    case _ => false
  }

  lemma {:induction false} SubmitExplains(states: seq<State>, actions: seq<Action>, k: nat, t: ThreadId, name: string,
                                          j: nat, full: bool)
    requires Starts(states, actions, k, t, name) && k < j && Submits(actions, t, j, full)
    requires t in states[j].threads && states[j].threads[t].Holding?
    ensures t in states[j + 1].threads && states[j + 1].threads[t].Finished?
    ensures Explains(states, actions, k, t, name, states[j + 1].threads[t].outcome)
  {
    var i := HoldingWasFound(states, actions, k, t, name, j);
    var p := states[j].threads[t].pool;
    assert Step(states[j], actions[j]) == Some(states[j + 1]);
    assert Reaches(states, actions, k, t, name, p, i, j, full, p in states[j].released);
  }

  lemma {:induction false} EndIsExplained(states: seq<State>, actions: seq<Action>, k: nat, t: ThreadId, name: string,
                                          m: nat)
    requires Starts(states, actions, k, t, name) && k < m <= |actions|
    requires t in states[m].threads && states[m].threads[t].Finished?
    ensures Explains(states, actions, k, t, name, states[m].threads[t].outcome)
    decreases m
  {
    var j := m - 1;
    assert Step(states[j], actions[j]) == Some(states[m]);
    if m > k + 1 {
      CheckedWasOpen(states, actions, k, t, name, j);
      if actions[j].t != t {
        OtherStep(states[j], actions[j], states[m], t);
        EndIsExplained(states, actions, k, t, name, j);
      } else if states[j].threads[t].Holding? {
        SubmitExplains(states, actions, k, t, name, j, actions[j].full);
      } else {
        assert Misses(states, actions, t, j, name);
      }
    }
  }

  // ---------------------------------------------------------------- from the moments to the outcome

  /** A call that is over stays as it is. */
  lemma {:induction false} DoneStays(states: seq<State>, actions: seq<Action>, t: ThreadId, m: nat, n: nat)
    requires IsTrace(states, actions) && m <= n <= |actions|
    requires t in states[m].threads && states[m].threads[t].Finished?
    ensures At(states[n], t, states[m].threads[t])
    decreases n - m
  {
    if m < n {
      assert Step(states[m], actions[m]) == Some(states[m + 1]);
      DoneStays(states, actions, t, m + 1, n);
    }
  }

  /** A call that holds a pool holds it until it is over. */
  lemma {:induction false} HoldsUntilDone(states: seq<State>, actions: seq<Action>, t: ThreadId, p: PoolId, m: nat,
                                          n: nat)
    requires IsTrace(states, actions) && m <= n <= |actions| && At(states[m], t, Holding(p))
    ensures At(states[n], t, Holding(p)) || (t in states[n].threads && states[n].threads[t].Finished?)
    decreases n - m
  {
    if m < n {
      assert Step(states[m], actions[m]) == Some(states[m + 1]);
      if states[m + 1].threads[t].Finished? {
        DoneStays(states, actions, t, m + 1, n);
      } else {
        HoldsUntilDone(states, actions, t, p, m + 1, n);
      }
    }
  }

  /** Reading the map, with the name there or not. */
  lemma {:induction false} ReadLeads(states: seq<State>, actions: seq<Action>, k: nat, t: ThreadId, name: string,
                                     i: nat)
    requires Starts(states, actions, k, t, name) && k < i < |actions| && actions[i] == ReadMap(t)
    ensures At(states[i + 1], t, if name in states[i].live then Holding(states[i].live[name]) else Finished(NotFound))
  {
    CheckedWasOpen(states, actions, k, t, name, i);
    assert Step(states[i], actions[i]) == Some(states[i + 1]);
  }

  /** The moments of a call decide its end. */
  lemma {:induction false} ReachedEnd(states: seq<State>, actions: seq<Action>, k: nat, t: ThreadId, name: string,
                                      p: PoolId, i: nat, j: nat, full: bool, gone: bool)
    requires Starts(states, actions, k, t, name)
    requires Reaches(states, actions, k, t, name, p, i, j, full, gone)
    ensures At(states[|actions|], t, Finished(if gone then Refused else if full then Overloaded else Accepted(p)))
  {
    ReadLeads(states, actions, k, t, name, i);
    HoldsUntilDone(states, actions, t, p, i + 1, j);
    assert Step(states[j], actions[j]) == Some(states[j + 1]);
    DoneStays(states, actions, t, j + 1, |actions|);
  }

  lemma {:induction false} MissedEnd(states: seq<State>, actions: seq<Action>, k: nat, t: ThreadId, name: string,
                                     i: nat)
    requires Starts(states, actions, k, t, name) && k < i && Misses(states, actions, t, i, name)
    ensures At(states[|actions|], t, Finished(NotFound))
  {
    ReadLeads(states, actions, k, t, name, i);
    DoneStays(states, actions, t, i + 1, |actions|);
  }

  lemma {:induction false} ClosedEnd(states: seq<State>, actions: seq<Action>, k: nat, t: ThreadId, name: string)
    requires Starts(states, actions, k, t, name) && states[k].closed
    ensures At(states[|actions|], t, Finished(Refused))
  {
    assert Step(states[k], actions[k]) == Some(states[k + 1]);
    DoneStays(states, actions, t, k + 1, |actions|);
  }

  lemma {:induction false} ExplainedEnd(states: seq<State>, actions: seq<Action>, k: nat, t: ThreadId, name: string,
                                        o: Outcome)
    requires Starts(states, actions, k, t, name) && Explains(states, actions, k, t, name, o)
    ensures At(states[|actions|], t, Finished(o))
  {
    match o
    case Accepted(p) =>
      var i, j :| Reaches(states, actions, k, t, name, p, i, j, false, false);
      ReachedEnd(states, actions, k, t, name, p, i, j, false, false);
    case Overloaded =>
      var p, i, j :| Reaches(states, actions, k, t, name, p, i, j, true, false);
      ReachedEnd(states, actions, k, t, name, p, i, j, true, false);
    case NotFound =>
      var i :| k < i && Misses(states, actions, t, i, name);
      MissedEnd(states, actions, k, t, name, i);
    case Refused =>
      if states[k].closed {
        ClosedEnd(states, actions, k, t, name);
      } else {
        var p, i, j, full :| Reaches(states, actions, k, t, name, p, i, j, full, true);
        ReachedEnd(states, actions, k, t, name, p, i, j, full, true);
      }
  }

  lemma {:induction false} EndsExactly(states: seq<State>, actions: seq<Action>, k: nat, t: ThreadId, name: string,
                                       o: Outcome)
    requires Starts(states, actions, k, t, name)
    ensures At(states[|actions|], t, Finished(o)) <==> Explains(states, actions, k, t, name, o)
  {
    if At(states[|actions|], t, Finished(o)) {
      EndIsExplained(states, actions, k, t, name, |actions|);
    }
    if Explains(states, actions, k, t, name, o) {
      ExplainedEnd(states, actions, k, t, name, o);
    }
  }

  // ---------------------------------------------------------------- the ends of an Execute

  /** The moments of a call, read off its end. */
  lemma {:induction false} MomentsOf(states: seq<State>, actions: seq<Action>, k: nat, t: ThreadId, name: string,
                                     o: Outcome)
    returns (p: PoolId, i: nat, j: nat, full: bool)
    requires Starts(states, actions, k, t, name) && At(states[|actions|], t, Finished(o)) && !states[k].closed
    requires o.Accepted? || o.Overloaded? || o.Refused?
    ensures Reaches(states, actions, k, t, name, p, i, j, full, o.Refused?)
    ensures (o.Overloaded? ==> full) && (o.Accepted? ==> !full && o.pool == p)
  {
    EndsExactly(states, actions, k, t, name, o);
    match o
    case Accepted(q) =>
      p, full := q, false;
      i, j :| Reaches(states, actions, k, t, name, p, i, j, false, false);
    case Overloaded =>
      full := true;
      p, i, j :| Reaches(states, actions, k, t, name, p, i, j, true, false);
    case Refused =>
      p, i, j, full :| Reaches(states, actions, k, t, name, p, i, j, full, true);
  }

  /** Two moments after the start, as the run has them. */
  ghost predicate Between(actions: seq<Action>, k: nat, i: nat, j: nat, t: ThreadId, full: bool) {
    k < i < j < |actions| && actions[i] == ReadMap(t) && actions[j] == Submit(t, full)
  }

  lemma {:induction false} EndOf(states: seq<State>, actions: seq<Action>, k: nat, t: ThreadId, name: string, i: nat,
                                 j: nat, full: bool)
    requires Starts(states, actions, k, t, name) && !states[k].closed && Between(actions, k, i, j, t, full)
    requires name in states[i].live
    ensures var p := states[i].live[name];
            At(states[|actions|], t,
               Finished(if p in states[j].released then Refused else if full then Overloaded else Accepted(p)))
  {
    var p := states[i].live[name];
    ReachedEnd(states, actions, k, t, name, p, i, j, full, p in states[j].released);
  }

  /** The call was accepted by a pool exactly if the manager was open at the check, the pool was the live one of that
      name at the read, and at the submit it had not been released and was not full. */
  lemma {:induction false} AcceptedExactly(states: seq<State>, actions: seq<Action>, k: nat, t: ThreadId, name: string,
                                           p: PoolId)
    requires Starts(states, actions, k, t, name)
    ensures At(states[|actions|], t, Finished(Accepted(p))) <==>
            !states[k].closed &&
            exists i: nat, j: nat ::
              Between(actions, k, i, j, t, false) &&
              name in states[i].live && states[i].live[name] == p && p !in states[j].released
  {
    if At(states[|actions|], t, Finished(Accepted(p))) {
      if states[k].closed {
        ClosedEnd(states, actions, k, t, name);
      }
      var q, i, j, full := MomentsOf(states, actions, k, t, name, Accepted(p));
      assert Between(actions, k, i, j, t, false);
    } else if i: nat, j: nat :|
      !states[k].closed && Between(actions, k, i, j, t, false) &&
      name in states[i].live && states[i].live[name] == p && p !in states[j].released
    {
      EndOf(states, actions, k, t, name, i, j, false);
    }
  }

  /** It was turned away as too much exactly if all this holds of some pool but that it was full. */
  lemma {:induction false} OverloadedExactly(states: seq<State>, actions: seq<Action>, k: nat, t: ThreadId,
                                             name: string)
    requires Starts(states, actions, k, t, name)
    ensures At(states[|actions|], t, Finished(Overloaded)) <==>
            !states[k].closed &&
            exists i: nat, j: nat ::
              Between(actions, k, i, j, t, true) &&
              name in states[i].live && states[i].live[name] !in states[j].released
  {
    if At(states[|actions|], t, Finished(Overloaded)) {
      if states[k].closed {
        ClosedEnd(states, actions, k, t, name);
      }
      var p, i, j, full := MomentsOf(states, actions, k, t, name, Overloaded);
      assert Between(actions, k, i, j, t, true);
    } else if i: nat, j: nat :|
      !states[k].closed && Between(actions, k, i, j, t, true) &&
      name in states[i].live && states[i].live[name] !in states[j].released
    {
      EndOf(states, actions, k, t, name, i, j, true);
    }
  }

  /** No pool was found exactly if the manager was open at the check and the name was not in the map at the read. */
  lemma {:induction false} NotFoundExactly(states: seq<State>, actions: seq<Action>, k: nat, t: ThreadId, name: string)
    requires Starts(states, actions, k, t, name)
    ensures At(states[|actions|], t, Finished(NotFound)) <==>
            !states[k].closed && exists i :: k < i < |actions| && actions[i] == ReadMap(t) && name !in states[i].live
  {
    EndsExactly(states, actions, k, t, name, NotFound);
    if i :| k < i < |actions| && actions[i] == ReadMap(t) && name !in states[i].live {
      assert Misses(states, actions, t, i, name);
    }
    if i: nat :| k < i && Misses(states, actions, t, i, name) {
      assert k < i < |actions| && actions[i] == ReadMap(t);
    }
  }

  /** The call was refused exactly if the manager was closed at the check, or the pool that was found had been released
      at the submit, full or not. */
  lemma {:induction false} RefusedExactly(states: seq<State>, actions: seq<Action>, k: nat, t: ThreadId, name: string)
    requires Starts(states, actions, k, t, name)
    ensures At(states[|actions|], t, Finished(Refused)) <==>
            states[k].closed ||
            exists i: nat, j: nat, full ::
              Between(actions, k, i, j, t, full) &&
              name in states[i].live && states[i].live[name] in states[j].released
  {
    if states[k].closed {
      ClosedEnd(states, actions, k, t, name);
    } else if At(states[|actions|], t, Finished(Refused)) {
      var p, i, j, full := MomentsOf(states, actions, k, t, name, Refused);
      assert Between(actions, k, i, j, t, full);
    } else if i: nat, j: nat, full :|
      Between(actions, k, i, j, t, full) && name in states[i].live && states[i].live[name] in states[j].released
    {
      EndOf(states, actions, k, t, name, i, j, full);
    }
  }

  /** There is no other end: a call that has not ended is before its read or before its submit. */
  lemma {:induction false} OneOfFourEnds(states: seq<State>, actions: seq<Action>, k: nat, t: ThreadId, name: string)
    requires Starts(states, actions, k, t, name)
    ensures t !in states[k].threads && t in states[|actions|].threads
    ensures match states[|actions|].threads[t]
            case Checked(n) => n == name && !states[k].closed
            case Holding(p) => exists i :: k < i && Finds(states, actions, t, i, name, p)
            case Finished(o) => o.Accepted? || o.Overloaded? || o.NotFound? || o.Refused?
            case _ => false
  {
    assert Step(states[k], actions[k]) == Some(states[k + 1]);
    CheckedWasOpen(states, actions, k, t, name, |actions|);
    if states[|actions|].threads[t].Holding? {
      var i := HoldingWasFound(states, actions, k, t, name, |actions|);
    } else if states[|actions|].threads[t].Finished? {
      EndIsExplained(states, actions, k, t, name, |actions|);
    }
  }

  // ---------------------------------------------------------------- the ends of a Reload

  /** A Reload is started at that place of the run. */
  ghost predicate StartsReload(states: seq<State>, actions: seq<Action>, k: nat, t: ThreadId, configs: seq<Config>) {
    IsTrace(states, actions) && k < |actions| && actions[k] == StartReload(t, configs)
  }

  /** Where a Reload can stand, by its configurations and the check. */
  ghost predicate ReloadStands(th: Thread, configs: seq<Config>, closed: bool) {
    match th
    case Building(rest, built) =>
      && !closed && (Buildable(configs, {}) <==> Buildable(rest, built.Keys))
      && |rest| <= |configs| && rest == configs[|configs| - |rest|..]
      && built.Keys == Names(configs[..|configs| - |rest|])
    case Releasing(_, o) => !closed && o == if Buildable(configs, {}) then Reloaded else Failed
    case Finished(o) => o == if closed then Refused else if Buildable(configs, {}) then Reloaded else Failed
    case _ => false
  }

  lemma {:induction false} BuildKeepsStanding(s: State, t: ThreadId, rest: seq<Config>, built: map<string, PoolId>,
                                              configs: seq<Config>)
    requires rest != [] && ReloadStands(Building(rest, built), configs, false)
    ensures ReloadStands(Build(s, t, rest, built).threads[t], configs, false)
  {
    var n := |configs| - |rest|;
    assert rest[0] == configs[n] && rest[1..] == configs[n + 1..];
    if !(rest[0].name in built || !rest[0].valid) {
      NamesNext(configs, n);
      assert built[rest[0].name := s.next].Keys == built.Keys + {rest[0].name};
    }
  }

  lemma {:induction false} ReloadStep(s: State, a: Action, next: State, t: ThreadId, configs: seq<Config>, closed: bool)
    requires Step(s, a) == Some(next) && t in s.threads && ReloadStands(s.threads[t], configs, closed)
    ensures t in next.threads && ReloadStands(next.threads[t], configs, closed)
  {
    if a.t != t {
      OtherStep(s, a, next, t);
    } else if a.BuildNext? {
      BuildKeepsStanding(s, t, s.threads[t].rest, s.threads[t].built, configs);
    }
  }

  lemma {:induction false} ReloadStandsAt(states: seq<State>, actions: seq<Action>, k: nat, t: ThreadId,
                                          configs: seq<Config>, m: nat)
    requires StartsReload(states, actions, k, t, configs) && k < m <= |actions|
    ensures t in states[m].threads && ReloadStands(states[m].threads[t], configs, states[k].closed)
    decreases m
  {
    assert Step(states[m - 1], actions[m - 1]) == Some(states[m]);
    if m == k + 1 {
      var none: map<string, PoolId> := map[];
      assert none.Keys == {} && configs[..0] == [] && configs[0..] == configs;
    } else {
      ReloadStandsAt(states, actions, k, t, configs, m - 1);
      ReloadStep(states[m - 1], actions[m - 1], states[m], t, configs, states[k].closed);
    }
  }

  /** A Reload that is over was refused if the manager was closed at its check; otherwise it succeeded exactly if its
      configurations are valid and have distinct names. */
  lemma {:induction false} ReloadEndsExactly(states: seq<State>, actions: seq<Action>, k: nat, t: ThreadId,
                                             configs: seq<Config>, o: Outcome)
    requires StartsReload(states, actions, k, t, configs) && At(states[|actions|], t, Finished(o))
    ensures o == if states[k].closed then Refused else if Buildable(configs, {}) then Reloaded else Failed
  {
    ReloadStandsAt(states, actions, k, t, configs, |actions|);
  }

  /** What a Reload swaps in has one pool for each of its names, and nothing else. */
  lemma {:induction false} SwapInstallsNames(states: seq<State>, actions: seq<Action>, k: nat, t: ThreadId,
                                             configs: seq<Config>, m: nat)
    requires StartsReload(states, actions, k, t, configs) && k < m < |actions| && actions[m] == Swap(t)
    ensures states[m + 1].live.Keys == Names(configs) && Buildable(configs, {}) && !states[k].closed
  {
    ReloadStandsAt(states, actions, k, t, configs, m);
    assert Step(states[m], actions[m]) == Some(states[m + 1]);
    assert configs[..|configs|] == configs;
  }

  /** Distinct valid configurations, said without recursion. */
  lemma {:induction false} BuildableExactly(configs: seq<Config>, names: set<string>)
    ensures Buildable(configs, names) <==>
            && (forall i :: 0 <= i < |configs| ==> configs[i].valid && configs[i].name !in names)
            && forall i, j :: 0 <= i < j < |configs| ==> configs[i].name != configs[j].name
    decreases |configs|
  {
    if configs != [] {
      var rest := configs[1..];
      BuildableExactly(rest, names + {configs[0].name});
      if Buildable(configs, names) {
        forall i | 0 <= i < |configs| ensures configs[i].valid && configs[i].name !in names {
          assert i > 0 ==> configs[i] == rest[i - 1];
        }
        forall i, j | 0 <= i < j < |configs| ensures configs[i].name != configs[j].name {
          assert configs[j] == rest[j - 1] && (i > 0 ==> configs[i] == rest[i - 1]);
        }
      }
    }
  }
}
