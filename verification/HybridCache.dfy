/** The plain map that a cache stands for: what every operation answers and leaves behind. */
module PlainCache {
  import opened Text

  type Plain = map<string, string>

  function Lookup(m: Plain, key: string): Option<string> {
    if key in m then Some(m[key]) else None
  }

  function Lookups(m: Plain, keys: seq<string>): (r: seq<Option<string>>)
    ensures |r| == |keys| && forall i :: 0 <= i < |keys| ==> r[i] == Lookup(m, keys[i])
  {
    seq(|keys|, i requires 0 <= i < |keys| => Lookup(m, keys[i]))
  }

  /** The keys that are there, each counted once. */
  function Present(m: Plain, keys: seq<string>): set<string> {
    set k | k in keys && k in m
  }

  function DropKeys<V>(m: map<string, V>, keys: seq<string>): map<string, V> {
    map k | k in m && k !in keys :: m[k]
  }

  /** Keys and values in turn, written in order. */
  function PutPairs(m: Plain, pairs: seq<string>): Plain
    requires |pairs| % 2 == 0
  {
    if pairs == [] then m
    else PutPairs(m, pairs[..|pairs| - 2])[pairs[|pairs| - 2] := pairs[|pairs| - 1]]
  }

  /** A counter is a number in its usual decimal form, within 64 bits. */
  function CounterOf(text: string): Option<int> {
    match ParseInt(text, 64)
    case None => None
    case Some(n) => if FormatInt(n) == text then Some(n) else None
  }

  /** The counter after the step: a missing key counts as zero. */
  function NextCounter(m: Plain, key: string, n: int): Option<int> {
    if key !in m then (if FitsBits(n, 64) then Some(n) else None)
    else
      match CounterOf(m[key])
      case None => None
      case Some(c) => if FitsBits(c + n, 64) then Some(c + n) else None
  }

  datatype Op =
    | Get(key: string)
    | Set(key: string, value: string)
    | Delete(keys: seq<string>)
    | Exists(keys: seq<string>)
    | MGet(keys: seq<string>)
    | MSet(pairs: seq<string>)
    | IncrBy(key: string, n: int)

  datatype Answer =
    | Value(value: Option<string>)
    | Done
    | Failed
    | Count(count: nat)
    | Values(values: seq<Option<string>>)
    | Counter(counter: int)

  function AnswerOf(m: Plain, op: Op): Answer {
    match op
    case Get(key) => Value(Lookup(m, key))
    case Set(key, value) => Done
    case Delete(keys) => Done
    case Exists(keys) => Count(|Present(m, keys)|)
    case MGet(keys) => Values(Lookups(m, keys))
    case MSet(pairs) => if |pairs| % 2 != 0 then Failed else Done
    case IncrBy(key, n) =>
      match NextCounter(m, key, n)
      case None => Failed
      case Some(next) => Counter(next)
  }

  function After(m: Plain, op: Op): Plain {
    match op
    case Get(key) => m
    case Set(key, value) => m[key := value]
    case Delete(keys) => DropKeys(m, keys)
    case Exists(keys) => m
    case MGet(keys) => m
    case MSet(pairs) => if |pairs| % 2 != 0 then m else PutPairs(m, pairs)
    case IncrBy(key, n) =>
      match NextCounter(m, key, n)
      case None => m
      case Some(next) => m[key := FormatInt(next)]
  }

  /** The answers of a run, in order. */
  function Answers(m: Plain, ops: seq<Op>): seq<Answer>
    decreases |ops|
  {
    if ops == [] then [] else [AnswerOf(m, ops[0])] + Answers(After(m, ops[0]), ops[1..])
  }

  /** Every counter step of the run finds a counter, or nothing, and stays in range. */
  predicate CountersInRange(m: Plain, ops: seq<Op>)
    decreases |ops|
  {
    ops == [] ||
    ((ops[0].IncrBy? ==> FitsBits(ops[0].n, 64) && NextCounter(m, ops[0].key, ops[0].n).Some?) &&
     CountersInRange(After(m, ops[0]), ops[1..]))
  }
}

/** A lossy local cache in front of an authoritative store. An operation happens at one moment of time. */
module HybridCache {
  import opened Text
  import opened PlainCache

  /** A stored text, and the moment it expires, if it does. */
  datatype Entry = Entry(value: string, expires: Option<int>)

  type Store = map<string, Entry>

  /** A local entry is still good at the moment it expires. */
  predicate LocalLive(e: Entry, now: int) {
    e.expires.None? || now <= e.expires.value
  }

  /** An entry of the authoritative store is gone at the moment it expires. */
  predicate RemoteLive(e: Entry, now: int) {
    e.expires.None? || now < e.expires.value
  }

  function LocalView(local: Store, now: int, key: string): Option<string> {
    if key in local && LocalLive(local[key], now) then Some(local[key].value) else None
  }

  /** What the authoritative store holds at a moment. */
  function View(remote: Store, now: int): Plain {
    map k | k in remote && RemoteLive(remote[k], now) :: remote[k].value
  }

  /** The local cache either keeps the new entry or has nothing under the key. */
  function PutLocal(local: Store, key: string, e: Entry, admit: bool): Store {
    if admit then local[key := e] else local - {key}
  }

  /** When a local entry expires, for a requested lifetime. */
  function LocalExpiry(now: int, defaultTtl: int, ttl: int): Option<int> {
    var lifetime := if ttl == 0 && defaultTtl > 0 then defaultTtl else ttl;
    if lifetime > 0 then Some(now + lifetime) else None
  }

  /** The entry that the local cache takes in for a value that the authoritative store gave. */
  function Refill(value: string, now: int, defaultTtl: int): Entry {
    Entry(value, LocalExpiry(now, defaultTtl, 0))
  }

  /** Whether the local cache lets in what it is offered at a place of the step. */
  predicate Admits(admit: seq<bool>, i: nat) {
    i < |admit| && admit[i]
  }

  /** The keys for which the local cache has nothing, in order. */
  function Missed(local: Store, now: int, keys: seq<string>): seq<string> {
    if keys == [] then []
    else
      var n := |keys| - 1;
      Missed(local, now, keys[..n]) + if LocalView(local, now, keys[n]).None? then [keys[n]] else []
  }

  /** The local cache after taking in what the authoritative store has for some keys. */
  function Refills(local: Store, view: Plain, now: int, defaultTtl: int, asked: seq<string>, admit: seq<bool>): Store {
    if asked == [] then local
    else
      var n := |asked| - 1;
      var before := Refills(local, view, now, defaultTtl, asked[..n], admit);
      if asked[n] in view then
        PutLocal(before, asked[n], Refill(view[asked[n]], now, defaultTtl), Admits(admit, n))
      else before
  }

  lemma {:induction false} RefillsCoherent(local: Store, remote: Store, now: int, defaultTtl: int, asked: seq<string>,
                                           admit: seq<bool>)
    requires Coherent(local, remote)
    ensures Coherent(Refills(local, View(remote, now), now, defaultTtl, asked, admit), remote)
  {
    if asked != [] {
      RefillsCoherent(local, remote, now, defaultTtl, asked[..|asked| - 1], admit);
    }
  }

  lemma {:induction false} RefillsTimed(local: Store, remote: Store, now: int, defaultTtl: int, asked: seq<string>,
                                        admit: seq<bool>)
    requires Timed(local, remote, defaultTtl)
    ensures Timed(Refills(local, View(remote, now), now, defaultTtl, asked, admit), remote, defaultTtl)
  {
    if asked != [] {
      var n := |asked| - 1;
      RefillsTimed(local, remote, now, defaultTtl, asked[..n], admit);
      var before := Refills(local, View(remote, now), now, defaultTtl, asked[..n], admit);
      forall k | k in before ensures Bounded(before[k], k, remote, defaultTtl) {
      }
    }
  }

  /** What is read, and what the local cache holds then. */
  predicate AreRead(local: Store, view: Plain, now: int, keys: seq<string>, values: seq<Option<string>>) {
    && |values| == |keys|
    && forall i :: 0 <= i < |keys| ==>
         values[i] == if LocalView(local, now, keys[i]).Some? then LocalView(local, now, keys[i])
                      else Lookup(view, keys[i])
  }

  function AfterRead(local: Store, view: Plain, now: int, defaultTtl: int, keys: seq<string>, admit: seq<bool>): Store {
    Refills(Swept(local, now, keys), view, now, defaultTtl, Missed(local, now, keys), admit)
  }

  lemma {:induction false} ReadCoherent(local: Store, remote: Store, now: int, defaultTtl: int, keys: seq<string>,
                                        admit: seq<bool>, values: seq<Option<string>>)
    requires Coherent(local, remote) && AreRead(local, View(remote, now), now, keys, values)
    ensures values == Lookups(View(remote, now), keys)
    ensures Coherent(AfterRead(local, View(remote, now), now, defaultTtl, keys, admit), remote)
  {
    RefillsCoherent(Swept(local, now, keys), remote, now, defaultTtl, Missed(local, now, keys), admit);
  }

  lemma {:induction false} ReadTimed(local: Store, remote: Store, now: int, defaultTtl: int, keys: seq<string>,
                                     admit: seq<bool>, values: seq<Option<string>>)
    requires Timed(local, remote, defaultTtl) && AreRead(local, View(remote, now), now, keys, values)
    ensures Timed(AfterRead(local, View(remote, now), now, defaultTtl, keys, admit), remote, defaultTtl)
    ensures forall i :: 0 <= i < |keys| && values[i].Some? ==> Servable(remote, now, keys[i], defaultTtl)
  {
    RefillsTimed(Swept(local, now, keys), remote, now, defaultTtl, Missed(local, now, keys), admit);
  }

  /** Reading many keys fills the local cache: what it has for a key is untouched if it had it already, if it was not
      asked for, or if the authoritative store has nothing; else it is the store's value with the default lifetime,
      and it is there if everything was let in. */
  lemma {:induction false} RefillsFill(local: Store, view: Plain, now: int, defaultTtl: int, asked: seq<string>,
                                       admit: seq<bool>, key: string)
    ensures var after := Refills(local, view, now, defaultTtl, asked, admit);
            if key in asked && key in view then
              && (key in after ==> after[key] == Entry(view[key], LocalExpiry(now, defaultTtl, 0)))
              && ((forall i :: 0 <= i < |asked| ==> Admits(admit, i)) ==> key in after)
            else (key in after <==> key in local) && (key in after ==> after[key] == local[key])
  {
    if asked != [] {
      RefillsFill(local, view, now, defaultTtl, asked[..|asked| - 1], admit, key);
    }
  }

  /** The keys that are looked up in the authoritative store are those that the local cache does not have. */
  lemma {:induction false} MissedAre(local: Store, now: int, keys: seq<string>, key: string)
    ensures key in Missed(local, now, keys) <==> key in keys && LocalView(local, now, key).None?
  {
    if keys != [] {
      MissedAre(local, now, keys[..|keys| - 1], key);
    }
  }

  /** The keys that either side holds, each counted once. */
  function Known(local: Store, view: Plain, now: int, keys: seq<string>): set<string> {
    set k | k in keys && (LocalView(local, now, k).Some? || k in view)
  }

  /** Looking keys up in the local cache drops those that have expired. */
  function Swept(local: Store, now: int, keys: seq<string>): Store {
    map k | k in local && (k in keys ==> LocalLive(local[k], now)) :: local[k]
  }

  lemma {:induction false} SweptNext(local: Store, now: int, keys: seq<string>, i: nat)
    requires i < |keys|
    ensures LocalView(Swept(local, now, keys[..i]), now, keys[i]) == LocalView(local, now, keys[i])
    ensures Swept(local, now, keys[..i + 1]) ==
            if LocalView(local, now, keys[i]).None? then Swept(local, now, keys[..i]) - {keys[i]}
            else Swept(local, now, keys[..i])
  {
    assert forall k :: k in keys[..i + 1] <==> k in keys[..i] || k == keys[i];
  }

  // ---------------------------------------------------------------- the two invariants

  /** Nothing expires in the authoritative store, and every local entry is there with the same value. */
  ghost predicate Coherent(local: Store, remote: Store) {
    && (forall k :: k in remote ==> remote[k].expires.None?)
    && (forall k :: k in local ==> k in remote && local[k].value == remote[k].value)
  }

  /** A local entry was written under its key in the authoritative store, and outlives that by at most the
      default lifetime. */
  predicate Bounded(e: Entry, key: string, remote: Store, defaultTtl: int) {
    && key in remote
    && (remote[key].expires.Some? ==> e.expires.Some? && e.expires.value <= remote[key].expires.value + defaultTtl)
  }

  ghost predicate Timed(local: Store, remote: Store, defaultTtl: int) {
    defaultTtl > 0 && forall k :: k in local ==> Bounded(local[k], k, remote, defaultTtl)
  }

  /** The key may still be served at this moment. */
  predicate Servable(remote: Store, now: int, key: string, defaultTtl: int) {
    key in remote && (remote[key].expires.Some? ==> now <= remote[key].expires.value + defaultTtl)
  }

  function Wrap64(n: int): int {
    (n + 0x8000_0000_0000_0000) % 0x1_0000_0000_0000_0000 - 0x8000_0000_0000_0000
  }

  class Hybrid {
    const defaultTtl: int
    var now: int
    var local: Store
    var remote: Store

    constructor (defaultTtl: int)
      ensures this.defaultTtl == defaultTtl && local == map[] && remote == map[] && now == 0
    {
      this.defaultTtl := defaultTtl;
      local, remote, now := map[], map[], 0;
    }

    // -------------------------------------------------------------- the world around

    /** Time passes and the local cache drops entries as it likes. */
    method Drift(wait: nat, keep: set<string>)
      modifies this`now, this`local
      ensures now == old(now) + wait
      ensures local == map k | k in old(local) && k in keep :: old(local)[k]
    {
      now := now + wait;
      local := map k | k in local && k in keep :: local[k];
    }

    // -------------------------------------------------------------- the local cache

    method LocalGet(key: string) returns (r: Option<string>)
      modifies this`local
      ensures r == LocalView(old(local), now, key)
      ensures local == if r.None? then old(local) - {key} else old(local)
    {
      if key !in local {
        return None;
      }
      if !LocalLive(local[key], now) {
        local := local - {key};
        return None;
      }
      return Some(local[key].value);
    }

    method LocalSet(key: string, value: string, ttl: int, admit: bool)
      modifies this`local
      ensures local == PutLocal(old(local), key, Entry(value, LocalExpiry(now, defaultTtl, ttl)), admit)
    {
      var lifetime := ttl;
      if ttl == 0 && defaultTtl > 0 {
        lifetime := defaultTtl;
      }
      var entry := Entry(value, None);
      if lifetime > 0 {
        entry := entry.(expires := Some(now + lifetime));
      }
      local := if admit then local[key := entry] else local - {key};
    }

    method LocalDelete(keys: seq<string>)
      modifies this`local
      ensures local == DropKeys(old(local), keys)
    {
      for i := 0 to |keys|
        invariant local == DropKeys(old(local), keys[..i])
      {
        local := local - {keys[i]};
      }
      assert keys[..|keys|] == keys;
    }

    // -------------------------------------------------------------- operations

    method Get(key: string, admit: bool) returns (r: Option<string>)
      modifies this`local
      ensures r ==
              match LocalView(old(local), now, key) case Some(v) => Some(v) case None => Lookup(View(remote, now), key)
      ensures LocalView(old(local), now, key).Some? ==> local == old(local)
      ensures LocalView(old(local), now, key).None? ==>
        local == if r.None? then old(local) - {key}
                 else PutLocal(old(local), key, Entry(r.value, LocalExpiry(now, defaultTtl, 0)), admit)
      ensures old(Coherent(local, remote)) ==> Coherent(local, remote) && r == Lookup(View(remote, now), key)
      ensures old(Timed(local, remote, defaultTtl)) ==>
              Timed(local, remote, defaultTtl) && (r.Some? ==> Servable(remote, now, key, defaultTtl))
    {
      r := LocalGet(key);
      if r.Some? {
        return;
      }
      r := Lookup(View(remote, now), key);
      if r.None? {
        return;
      }
      LocalSet(key, r.value, 0, admit);
    }

    method Set(key: string, value: string, ttl: int, admit: bool)
      modifies this`local, this`remote
      ensures remote == old(remote)[key := Entry(value, if ttl > 0 then Some(now + ttl) else None)]
      ensures local == PutLocal(old(local), key, Entry(value, LocalExpiry(now, defaultTtl, ttl)), admit)
      ensures old(Coherent(local, remote)) && ttl == 0 ==> Coherent(local, remote)
      ensures old(Timed(local, remote, defaultTtl)) ==> Timed(local, remote, defaultTtl)
    {
      LocalSet(key, value, ttl, admit);
      remote := remote[key := Entry(value, if ttl > 0 then Some(now + ttl) else None)];
    }

    method Delete(keys: seq<string>)
      modifies this`local, this`remote
      ensures remote == DropKeys(old(remote), keys)
      ensures old(Coherent(local, remote)) ==> Coherent(local, remote)
      ensures old(Timed(local, remote, defaultTtl)) ==> Timed(local, remote, defaultTtl)
    {
      LocalDelete(keys);
      remote := DropKeys(remote, keys);
    }

    method Exists(keys: seq<string>) returns (count: nat)
      modifies this`local
      ensures count == |Known(old(local), View(remote, now), now, keys)| && local == Swept(old(local), now, keys)
      ensures old(Coherent(local, remote)) ==> Coherent(local, remote) && count == |Present(View(remote, now), keys)|
      ensures old(Timed(local, remote, defaultTtl)) ==> Timed(local, remote, defaultTtl)
    {
      var seen: set<string> := {};
      for i := 0 to |keys|
        invariant local == Swept(old(local), now, keys[..i])
        invariant seen == set k | k in keys[..i] && LocalView(old(local), now, k).Some?
      {
        SweptNext(old(local), now, keys, i);
        var r := LocalGet(keys[i]);
        if r.Some? {
          seen := seen + {keys[i]};
        }
      }
      assert keys[..|keys|] == keys;
      var values := Lookups(View(remote, now), keys);
      for i := 0 to |values|
        invariant seen == set k | k in keys && (LocalView(old(local), now, k).Some? ||
                                                (k in keys[..i] && k in View(remote, now)))
      {
        assert forall k :: k in keys[..i + 1] <==> k in keys[..i] || k == keys[i];
        if values[i].Some? {
          seen := seen + {keys[i]};
        }
      }
      ghost var view := View(remote, now);
      assert seen == Known(old(local), view, now, keys);
      assert old(Coherent(local, remote)) ==> seen == Present(view, keys);
      return |seen|;
    }

    /** The first loop of MGet: what the local cache answers, and the keys it misses with their positions. */
    method LocalMGet(keys: seq<string>)
      returns (values: seq<Option<string>>, missing: seq<string>, places: seq<nat>)
      modifies this`local
      ensures local == Swept(old(local), now, keys)
      ensures |values| == |keys| && forall j :: 0 <= j < |keys| ==> values[j] == LocalView(old(local), now, keys[j])
      ensures missing == Missed(old(local), now, keys)
      ensures |places| == |missing|
      ensures forall j :: 0 <= j < |places| ==> places[j] < |keys| && keys[places[j]] == missing[j]
      ensures forall j :: 0 <= j < |keys| ==> (values[j].None? <==> j in places)
    {
      values, missing, places := [], [], [];
      for i := 0 to |keys|
        invariant local == Swept(old(local), now, keys[..i])
        invariant |values| == i && forall j :: 0 <= j < i ==> values[j] == LocalView(old(local), now, keys[j])
        invariant missing == Missed(old(local), now, keys[..i])
        invariant |places| == |missing|
        invariant forall j :: 0 <= j < |places| ==> places[j] < i && keys[places[j]] == missing[j]
        invariant forall j :: 0 <= j < i ==> (values[j].None? <==> j in places)
      {
        SweptNext(old(local), now, keys, i);
        assert keys[..i + 1][..i] == keys[..i];
        var r := LocalGet(keys[i]);
        values := values + [r];
        if r.None? {
          missing, places := missing + [keys[i]], places + [i];
        }
      }
      assert keys[..|keys|] == keys;
    }

    /** The second loop of MGet: what the authoritative store has for the missing keys. */
    method Refetch(keys: seq<string>, missing: seq<string>, places: seq<nat>, admit: seq<bool>,
                   first: seq<Option<string>>)
      returns (values: seq<Option<string>>)
      requires |first| == |keys| && |places| == |missing|
      requires forall j :: 0 <= j < |places| ==> places[j] < |keys| && keys[places[j]] == missing[j]
      requires forall j :: 0 <= j < |keys| ==> (first[j].None? <==> j in places)
      modifies this`local
      ensures local == Refills(old(local), View(remote, now), now, defaultTtl, missing, admit)
      ensures |values| == |keys|
      ensures forall i :: 0 <= i < |keys| ==>
                values[i] == if first[i].Some? then first[i] else Lookup(View(remote, now), keys[i])
    {
      values := first;
      for i := 0 to |missing|
        invariant local == Refills(old(local), View(remote, now), now, defaultTtl, missing[..i], admit)
        invariant |values| == |keys|
        invariant forall j :: 0 <= j < |keys| ==>
                  values[j] == first[j] || (first[j].None? && values[j] == Lookup(View(remote, now), keys[j]))
        invariant forall j :: 0 <= j < i ==> values[places[j]] == Lookup(View(remote, now), missing[j])
      {
        assert missing[..i + 1][..i] == missing[..i];
        assert places[i] in places;
        var value := Lookup(View(remote, now), missing[i]);
        if value.Some? {
          values := values[places[i] := value];
          LocalSet(missing[i], value.value, 0, Admits(admit, i));
        }
      }
      assert missing[..|missing|] == missing;
    }

    method MGet(keys: seq<string>, admit: seq<bool>) returns (values: seq<Option<string>>)
      modifies this`local
      ensures |values| == |keys|
      ensures AreRead(old(local), View(remote, now), now, keys, values)
      ensures local == AfterRead(old(local), View(remote, now), now, defaultTtl, keys, admit)
      ensures old(Coherent(local, remote)) ==> Coherent(local, remote) && values == Lookups(View(remote, now), keys)
      ensures old(Timed(local, remote, defaultTtl)) ==> Timed(local, remote, defaultTtl)
      ensures old(Timed(local, remote, defaultTtl)) ==>
              forall i :: 0 <= i < |keys| && values[i].Some? ==> Servable(remote, now, keys[i], defaultTtl)
    {
      var first, missing, places := LocalMGet(keys);
      values := Refetch(keys, missing, places, admit, first);
      if Coherent(old(local), remote) {
        ReadCoherent(old(local), remote, now, defaultTtl, keys, admit, values);
      }
      if Timed(old(local), remote, defaultTtl) {
        ReadTimed(old(local), remote, now, defaultTtl, keys, admit, values);
      }
    }

    /** The loop of the local MSet, which takes two arguments at a time. */
    method LocalMSet(pairs: seq<string>, admit: seq<bool>)
      requires |pairs| % 2 == 0
      modifies this`local
      ensures forall k :: k in local ==>
                (k in old(local) && local[k] == old(local[k]) && k !in Keys(pairs)) ||
                (k in PutPairs(map[], pairs) &&
                 local[k] == Entry(PutPairs(map[], pairs)[k], LocalExpiry(now, defaultTtl, 0)))
      ensures forall k :: k in old(local) && k !in Keys(pairs) ==> k in local
      ensures (forall i :: 0 <= i < |admit| ==> admit[i]) && |admit| == |pairs| / 2 ==>
              forall k :: k in Keys(pairs) ==> k in local
    {
      var i := 0;
      while i < |pairs|
        invariant 0 <= i <= |pairs| && i % 2 == 0
        invariant forall k :: k in local ==>
                (k in old(local) && local[k] == old(local[k]) && k !in Keys(pairs[..i])) ||
                (k in PutPairs(map[], pairs[..i]) &&
                 local[k] == Entry(PutPairs(map[], pairs[..i])[k], LocalExpiry(now, defaultTtl, 0)))
        invariant forall k :: k in old(local) && k !in Keys(pairs[..i]) ==> k in local
        invariant (forall i :: 0 <= i < |admit| ==> admit[i]) && |admit| == |pairs| / 2 ==>
                  forall k :: k in Keys(pairs[..i]) ==> k in local
      {
        PairsNext(map[], pairs, i);
        LocalSet(pairs[i], pairs[i + 1], 0, Admits(admit, i / 2));
        i := i + 2;
      }
      assert pairs[..|pairs|] == pairs;
    }

    method MSet(pairs: seq<string>, admit: seq<bool>) returns (ok: bool)
      modifies this`local, this`remote
      ensures ok <==> |pairs| % 2 == 0
      ensures !ok ==> remote == old(remote) && local == old(local)
      ensures ok ==> remote == PutEntries(old(remote), pairs)
      ensures old(Coherent(local, remote)) ==> Coherent(local, remote)
      ensures old(Timed(local, remote, defaultTtl)) ==> Timed(local, remote, defaultTtl)
    {
      if |pairs| % 2 != 0 {
        return false;
      }
      LocalMSet(pairs, admit);
      PutPairsKeys(map[], pairs);
      remote := PutEntries(remote, pairs);
      return true;
    }

    /** IncrBy of the local cache, which counts in 64 bits and wraps around. */
    method LocalIncrBy(key: string, n: int, admit: bool) returns (r: Option<int>)
      modifies this`local
      ensures r == LocalCount(old(local), now, key, n)
      ensures r.None? ==> local == old(local)
      ensures r.Some? ==>
        local == PutLocal(old(local), key, Entry(FormatInt(r.value), LocalExpiry(now, defaultTtl, 0)), admit)
    {
      var text := LocalGet(key);
      var current := 0;
      if text.Some? {
        var parsed := ParseInt(text.value, 64);
        if parsed.None? {
          return None;
        }
        current := parsed.value;
      }
      current := Wrap64(current + n);
      LocalSet(key, FormatInt(current), 0, admit);
      return Some(current);
    }

    /** IncrBy: the local count is replaced by that of the authoritative store, unless the store refuses. */
    method IncrBy(key: string, n: int, admit: bool, admitAgain: bool) returns (r: Option<int>)
      requires FitsBits(n, 64)
      modifies this`local, this`remote
      ensures CountStep(old(local), old(remote), now, defaultTtl, key, n, admit, admitAgain, local, remote, r)
      ensures old(Coherent(local, remote)) ==>
        (r == old(NextCounter(View(remote, now), key, n)) <==> old(CounterAgrees(local, remote, now, key, n)))
      ensures old(Coherent(local, remote)) && old(CounterAgrees(local, remote, now, key, n)) ==> Coherent(local, remote)
      ensures remote == old(Counted(remote, now, key, n)) || (r.None? && remote == old(remote))
      ensures r.Some? ==> remote == old(Counted(remote, now, key, n))
      ensures old(Timed(local, remote, defaultTtl)) ==> Timed(local, remote, defaultTtl)
    {
      r := CountBoth(key, n, admit, admitAgain);
      if old(Coherent(local, remote)) {
        CountCoherent(old(local), old(remote), now, defaultTtl, key, n, admit, admitAgain, local, remote, r);
      }
      if old(Timed(local, remote, defaultTtl)) {
        CountTimed(old(local), old(remote), now, defaultTtl, key, n, admit, admitAgain, local, remote, r);
      }
    }

    /** The two steps of IncrBy. */
    method CountBoth(key: string, n: int, admit: bool, admitAgain: bool) returns (r: Option<int>)
      modifies this`local, this`remote
      ensures CountStep(old(local), old(remote), now, defaultTtl, key, n, admit, admitAgain, local, remote, r)
    {
      r := LocalIncrBy(key, n, admit);
      if r.None? {
        return;
      }
      var stored := NextCounter(View(remote, now), key, n);
      remote := Counted(remote, now, key, n);
      if stored.Some? {
        r := stored;
        LocalSet(key, FormatInt(r.value), 0, admitAgain);
      }
    }

    /** Expire: the local entry is written again with the new lifetime, whatever the authoritative store holds. The
        store drops the key for a lifetime that is not positive. */
    method Expire(key: string, ttl: int, admit: bool)
      modifies this`local, this`remote
      ensures LocalView(old(local), now, key).Some? ==>
        local == PutLocal(old(local), key, Entry(old(local)[key].value, LocalExpiry(now, defaultTtl, ttl)), admit)
      ensures LocalView(old(local), now, key).None? ==> local == old(local) - {key}
      ensures remote == if key !in View(old(remote), now) then old(remote)
                        else if ttl <= 0 then old(remote) - {key}
                        else old(remote)[key := Entry(old(remote)[key].value, Some(now + ttl))]
      ensures old(Timed(local, remote, defaultTtl)) ==>
        (Timed(local, remote, defaultTtl) <==> old(ExpireKeepsBound(local, remote, now, defaultTtl, key, ttl, admit)))
    {
      ghost var local0, remote0 := local, remote;
      var value := LocalGet(key);
      if value.Some? {
        LocalSet(key, value.value, ttl, admit);
      }
      if key in View(remote, now) {
        remote := if ttl <= 0 then remote - {key} else remote[key := Entry(remote[key].value, Some(now + ttl))];
      }
      if Timed(local0, remote0, defaultTtl) {
        ExpireExactly(local0, remote0, now, defaultTtl, key, ttl, admit, local, remote);
      }
    }

    // -------------------------------------------------------------- runs

    /** One reading step of a client. */
    method Read(op: Op, admit: seq<bool>) returns (answer: Answer)
      requires Coherent(local, remote) && (op.Get? || op.Exists? || op.MGet?)
      modifies this`local
      ensures Coherent(local, remote)
      ensures answer == AnswerOf(View(remote, now), op)
    {
      match op
      case Get(key) =>
        var r := Get(key, Admits(admit, 0));
        return Value(r);
      case Exists(keys) =>
        var count := Exists(keys);
        return Count(count);
      case MGet(keys) =>
        var values := MGet(keys, admit);
        return Values(values);
    }

    /** One writing step of a client, other than a counter step. */
    method Write(op: Op, admit: seq<bool>) returns (answer: Answer)
      requires Coherent(local, remote) && (op.Set? || op.Delete? || op.MSet?)
      modifies this`local, this`remote
      ensures Coherent(local, remote)
      ensures answer == AnswerOf(old(View(remote, now)), op)
      ensures View(remote, now) == After(old(View(remote, now)), op)
    {
      match op
      case Set(key, value) =>
        ViewSet(remote, now, key, value);
        Set(key, value, 0, Admits(admit, 0));
        return Done;
      case Delete(keys) =>
        ViewDrop(remote, now, keys);
        Delete(keys);
        return Done;
      case MSet(pairs) =>
        if |pairs| % 2 == 0 {
          PutEntriesView(remote, now, pairs);
        }
        var ok := MSet(pairs, admit);
        return if ok then Done else Failed;
    }

    /** One counter step of a client. */
    method Step(key: string, n: int, admit: seq<bool>) returns (answer: Answer)
      requires Coherent(local, remote) && FitsBits(n, 64) && NextCounter(View(remote, now), key, n).Some?
      modifies this`local, this`remote
      ensures Coherent(local, remote)
      ensures answer == AnswerOf(old(View(remote, now)), Op.IncrBy(key, n))
      ensures View(remote, now) == After(old(View(remote, now)), Op.IncrBy(key, n))
    {
      CounterFacts(remote, now, key, n);
      ViewCounted(local, remote, now, key, n);
      var r := IncrBy(key, n, Admits(admit, 0), Admits(admit, 1));
      return Counter(r.value);
    }

    /** One step of a client. */
    method Perform(op: Op, admit: seq<bool>) returns (answer: Answer)
      requires Coherent(local, remote)
      requires op.IncrBy? ==> FitsBits(op.n, 64) && NextCounter(View(remote, now), op.key, op.n).Some?
      modifies this`local, this`remote
      ensures Coherent(local, remote)
      ensures answer == AnswerOf(old(View(remote, now)), op)
      ensures View(remote, now) == After(old(View(remote, now)), op)
    {
      if op.IncrBy? {
        answer := Step(op.key, op.n, admit);
      } else if op.Get? || op.Exists? || op.MGet? {
        answer := Read(op, admit);
      } else {
        answer := Write(op, admit);
      }
    }

    /** One step of a client: some waiting, some evictions, and the operation. */
    method Serve(step: ClientStep) returns (answer: Answer)
      requires Coherent(local, remote)
      requires step.op.IncrBy? ==>
                 FitsBits(step.op.n, 64) && NextCounter(View(remote, now), step.op.key, step.op.n).Some?
      modifies this
      ensures Coherent(local, remote)
      ensures answer == AnswerOf(old(View(remote, now)), step.op)
      ensures View(remote, now) == After(old(View(remote, now)), step.op)
    {
      CoherentLater(local, remote, now, step.wait);
      Drift(step.wait, step.keep);
      answer := Perform(step.op, step.admit);
    }

    /** Any run of a single client, with any waiting, any evictions before each step and any refusals by the local
        cache: the answers are those of the plain map. */
    method Run(steps: seq<ClientStep>) returns (answers: seq<Answer>)
      requires Coherent(local, remote) && CountersInRange(View(remote, now), Ops(steps))
      modifies this
      ensures Coherent(local, remote)
      ensures answers == Answers(old(View(remote, now)), Ops(steps))
    {
      answers := [];
      ghost var all := Answers(View(remote, now), Ops(steps));
      for i := 0 to |steps|
        invariant Coherent(local, remote)
        invariant all == answers + Answers(View(remote, now), Ops(steps[i..]))
        invariant CountersInRange(View(remote, now), Ops(steps[i..]))
      {
        OpsNext(View(remote, now), steps, i);
        var answer := Serve(steps[i]);
        answers := answers + [answer];
      }
    }

    /** One step of a timed run. Expire is called only where it keeps the bound. */
    method PerformTimed(step: TimedStep) returns (answer: Answer)
      requires Timed(local, remote, defaultTtl) && (step.op.Do? && step.op.op.IncrBy? ==> FitsBits(step.op.op.n, 64))
      modifies this`local, this`remote
      ensures Timed(local, remote, defaultTtl)
      ensures forall k :: k in ServedKeys(step.op, answer) ==> Servable(remote, now, k, defaultTtl)
    {
      match step.op
      case Prolong(key, ttl) =>
        if ExpireKeepsBound(local, remote, now, defaultTtl, key, ttl, Admits(step.admit, 0)) {
          Expire(key, ttl, Admits(step.admit, 0));
        }
        return Done;
      case Do(op) =>
        match op
        case Get(key) =>
          var r := Get(key, Admits(step.admit, 0));
          return Value(r);
        case Set(key, value) =>
          Set(key, value, step.ttl, Admits(step.admit, 0));
          return Done;
        case Delete(keys) =>
          Delete(keys);
          return Done;
        case Exists(keys) =>
          var count := Exists(keys);
          return Count(count);
        case MGet(keys) =>
          var values := MGet(keys, step.admit);
          ServedAreSome(keys, values);
          return Values(values);
        case MSet(pairs) =>
          var ok := MSet(pairs, step.admit);
          return if ok then Done else Failed;
        case IncrBy(key, n) =>
          var r := IncrBy(key, n, Admits(step.admit, 0), Admits(step.admit, 1));
          return if r.Some? then Counter(r.value) else Failed;
    }

    /** The log entries for the values that a step served. */
    method LogServed(keys: seq<string>) returns (log: seq<Serving>)
      requires forall k :: k in keys ==> Servable(remote, now, k, defaultTtl)
      ensures KeysOf(log) == keys
      ensures forall i :: 0 <= i < |log| ==> log[i].at == now && InTime(log[i], defaultTtl)
    {
      log := [];
      for i := 0 to |keys|
        invariant KeysOf(log) == keys[..i]
        invariant forall j :: 0 <= j < |log| ==> log[j].at == now && InTime(log[j], defaultTtl)
      {
        assert keys[i] in keys;
        log := log + [Serving(keys[i], now, remote[keys[i]].expires)];
      }
    }

    /** Any run, with lifetimes of any length and with Expire wherever it keeps the bound: the log has one entry for
        every value that Get or MGet served, in order, and every entry under a key with an expiry in the authoritative
        store is dated no later than the default lifetime after that expiry. */
    method RunTimed(steps: seq<TimedStep>) returns (answers: seq<Answer>, log: seq<Serving>)
      requires Timed(local, remote, defaultTtl)
      requires forall i :: 0 <= i < |steps| && steps[i].op.Do? && steps[i].op.op.IncrBy? ==>
               FitsBits(steps[i].op.op.n, 64)
      modifies this
      ensures Timed(local, remote, defaultTtl)
      ensures |answers| == |steps| && KeysOf(log) == AllServed(steps, answers)
      ensures forall i :: 0 <= i < |log| ==> InTime(log[i], defaultTtl)
    {
      answers, log := [], [];
      for i := 0 to |steps|
        invariant Timed(local, remote, defaultTtl)
        invariant |answers| == i && KeysOf(log) == AllServed(steps[..i], answers)
        invariant forall i :: 0 <= i < |log| ==> InTime(log[i], defaultTtl)
      {
        Drift(steps[i].wait, steps[i].keep);
        var answer := PerformTimed(steps[i]);
        var entries := LogServed(ServedKeys(steps[i].op, answer));
        AllServedNext(steps, answers, i, answer);
        KeysOfConcat(log, entries);
        answers, log := answers + [answer], log + entries;
      }
      assert steps[..|steps|] == steps;
    }
  }

  /** A step of a client: how long it waits, which local entries survive until then, and what the local cache
      admits during the step. */
  datatype ClientStep = ClientStep(op: Op, wait: nat, keep: set<string>, admit: seq<bool>)

  /** An operation, or Expire, for a timed run. */
  datatype TimedOp = Do(op: Op) | Prolong(key: string, ttl: int)

  datatype TimedStep = TimedStep(op: TimedOp, ttl: int, wait: nat, keep: set<string>, admit: seq<bool>)

  /** The keys whose positions hold a value. */
  function Found(keys: seq<string>, values: seq<Option<string>>): seq<string>
    requires |keys| == |values|
  {
    if keys == [] then []
    else Found(keys[..|keys| - 1], values[..|keys| - 1]) + if values[|keys| - 1].Some? then [keys[|keys| - 1]] else []
  }

  /** The keys under which an answer serves values. */
  function ServedKeys(op: TimedOp, answer: Answer): seq<string> {
    if op.Do? && op.op.Get? && answer.Value? && answer.value.Some? then [op.op.key]
    else if op.Do? && op.op.MGet? && answer.Values? && |answer.values| == |op.op.keys| then
      Found(op.op.keys, answer.values)
    else []
  }

  function AllServed(steps: seq<TimedStep>, answers: seq<Answer>): seq<string>
    requires |steps| == |answers|
  {
    if steps == [] then []
    else
      var n := |steps| - 1;
      AllServed(steps[..n], answers[..n]) + ServedKeys(steps[n].op, answers[n])
  }

  lemma {:induction false} AllServedNext(steps: seq<TimedStep>, answers: seq<Answer>, i: nat, answer: Answer)
    requires i < |steps| && |answers| == i
    ensures AllServed(steps[..i + 1], answers + [answer]) ==
            AllServed(steps[..i], answers) + ServedKeys(steps[i].op, answer)
  {
    assert steps[..i + 1][..i] == steps[..i] && (answers + [answer])[..i] == answers;
  }

  lemma {:induction false} ServedAreSome(keys: seq<string>, values: seq<Option<string>>)
    requires |keys| == |values|
    ensures forall k :: k in Found(keys, values) ==> exists i :: 0 <= i < |keys| && keys[i] == k && values[i].Some?
  {
    if keys != [] {
      var n := |keys| - 1;
      ServedAreSome(keys[..n], values[..n]);
      forall k | k in Found(keys, values) ensures exists i :: 0 <= i < |keys| && keys[i] == k && values[i].Some? {
        if k in Found(keys[..n], values[..n]) {
          var i :| 0 <= i < n && keys[..n][i] == k && values[..n][i].Some?;
          assert keys[i] == k && values[i].Some?;
        } else {
          assert keys[n] == k && values[n].Some?;
        }
      }
    }
  }

  function KeysOf(log: seq<Serving>): (r: seq<string>)
    ensures |r| == |log| && forall i :: 0 <= i < |log| ==> r[i] == log[i].key
  {
    seq(|log|, i requires 0 <= i < |log| => log[i].key)
  }

  lemma {:induction false} KeysOfConcat(a: seq<Serving>, b: seq<Serving>)
    ensures KeysOf(a + b) == KeysOf(a) + KeysOf(b)
  {
  }

  predicate InTime(s: Serving, defaultTtl: int) {
    s.expires.Some? ==> s.at <= s.expires.value + defaultTtl
  }

  /** A value served: when, and when its key expires in the authoritative store. */
  datatype Serving = Serving(key: string, at: int, expires: Option<int>)

  function Ops(steps: seq<ClientStep>): (r: seq<Op>)
    ensures |r| == |steps| && forall i :: 0 <= i < |steps| ==> r[i] == steps[i].op
  {
    seq(|steps|, i requires 0 <= i < |steps| => steps[i].op)
  }

  lemma {:induction false} OpsNext(m: Plain, steps: seq<ClientStep>, i: nat)
    requires i < |steps|
    ensures Answers(m, Ops(steps[i..])) ==
            [AnswerOf(m, steps[i].op)] + Answers(After(m, steps[i].op), Ops(steps[i + 1..]))
    ensures CountersInRange(m, Ops(steps[i..])) ==>
              && (steps[i].op.IncrBy? ==>
                  FitsBits(steps[i].op.n, 64) && NextCounter(m, steps[i].op.key, steps[i].op.n).Some?)
              && CountersInRange(After(m, steps[i].op), Ops(steps[i + 1..]))
  {
    assert Ops(steps[i..]) == [steps[i].op] + Ops(steps[i + 1..]);
  }

  /** Nothing expires, so the plain map does not change with time. */
  lemma CoherentLater(local: Store, remote: Store, now: int, wait: nat)
    requires Coherent(local, remote)
    ensures View(remote, now + wait) == View(remote, now)
  {
  }

  /** A cache whose local entry has outlived the store's: written with a lifetime of 5, taken in at 4, now at 6. */
  method StaleCache() returns (cache: Hybrid)
    ensures fresh(cache) && cache.defaultTtl == 10 && cache.now == 6
    ensures cache.local == map["k" := Entry("v", Some(14))] && cache.remote == map["k" := Entry("v", Some(5))]
  {
    cache := new Hybrid(10);
    cache.Set("k", "v", 5, false);
    assert cache.local == map[];
    cache.Drift(4, {});
    assert cache.local == map[];
    var r := cache.Get("k", true);
    assert r == Some("v");
    cache.Drift(2, {"k"});
  }

  /** Outside its condition Expire can prolong a local entry that the authoritative store no longer has, past any
      bound: a value that expired at 5 is served at 50, with a default lifetime of 10. */
  method ExpireOutlivesBound() returns (cache: Hybrid, served: Option<string>)
    ensures served == Some("v") && cache.defaultTtl == 10 && cache.now == 50
    ensures "k" in cache.remote && cache.remote["k"].expires == Some(5)
  {
    cache := StaleCache();
    cache.Expire("k", 100, true);
    assert cache.local == map["k" := Entry("v", Some(106))];
    cache.Drift(44, {"k"});
    served := cache.Get("k", true);
  }

  /** A counter step on a text that is no number: the plain map refuses, while the hybrid cache, having nothing
      local, counts from zero. */
  method CounterOnText() returns (cache: Hybrid, r: Option<int>)
    ensures cache.remote == map["k" := Entry("abc", None)] && NextCounter(View(cache.remote, cache.now), "k", 1).None?
    ensures r.Some?
  {
    cache := new Hybrid(10);
    cache.Set("k", "abc", 0, false);
    assert !AllDigits("abc") by {
      assert !IsDigit("abc"[0]);
    }
    assert NextCounter(View(cache.remote, 0), "k", 1).None?;
    assert cache.local == map[];
    r := cache.IncrBy("k", 1, true, true);
  }

  /** The keys of an argument list. */
  function Keys(pairs: seq<string>): set<string>
    requires |pairs| % 2 == 0
  {
    set i | 0 <= i < |pairs| && i % 2 == 0 :: pairs[i]
  }

  /** MSET of the authoritative store: the new entries do not expire. */
  function PutEntries(remote: Store, pairs: seq<string>): Store
    requires |pairs| % 2 == 0
  {
    var news := PutPairs(map[], pairs);
    remote + map k | k in news :: Entry(news[k], None)
  }

  lemma PairsNext(m: Plain, pairs: seq<string>, i: nat)
    requires |pairs| % 2 == 0 && i % 2 == 0 && i < |pairs|
    ensures PutPairs(m, pairs[..i + 2]) == PutPairs(m, pairs[..i])[pairs[i] := pairs[i + 1]]
    ensures Keys(pairs[..i + 2]) == Keys(pairs[..i]) + {pairs[i]}
  {
    var longer := pairs[..i + 2];
    assert longer[..i] == pairs[..i];
    forall k | k in Keys(longer) ensures k in Keys(pairs[..i]) + {pairs[i]} {
      var j :| 0 <= j < |longer| && j % 2 == 0 && longer[j] == k;
      if j < i {
        assert pairs[..i][j] == k;
      }
    }
    forall k | k in Keys(pairs[..i]) ensures k in Keys(longer) {
      var j :| 0 <= j < i && j % 2 == 0 && pairs[..i][j] == k;
      assert longer[j] == k;
    }
    assert longer[i] == pairs[i];
  }

  lemma {:induction false} PutPairsKeys(m: Plain, pairs: seq<string>)
    requires |pairs| % 2 == 0
    ensures forall k :: k in PutPairs(m, pairs) <==> k in m || k in Keys(pairs)
    decreases |pairs|
  {
    if pairs != [] {
      var n := |pairs| - 2;
      PutPairsKeys(m, pairs[..n]);
      PairsNext(m, pairs, n);
      assert pairs[..n + 2] == pairs;
    }
  }

  /** What Expire leaves of the local entry and of the store's. */
  predicate ExpireStep(local: Store, remote: Store, now: int, defaultTtl: int, key: string, ttl: int, admit: bool,
                       local': Store, remote': Store) {
    && local' == (if LocalView(local, now, key).None? then local - {key}
                  else PutLocal(local, key, Entry(local[key].value, LocalExpiry(now, defaultTtl, ttl)), admit))
    && remote' == (if key !in View(remote, now) then remote
                   else if ttl <= 0 then remote - {key}
                   else remote[key := Entry(remote[key].value, Some(now + ttl))])
  }

  /** When Expire keeps the bound on lateness: nothing is prolonged, or the store is prolonged along with the local
      entry, or the new local lifetime ends within the bound of an entry that the store has already let go. */
  predicate ExpireKeepsBound(local: Store, remote: Store, now: int, defaultTtl: int, key: string, ttl: int,
                             admit: bool) {
    || LocalView(local, now, key).None?
    || !admit
    || (key in View(remote, now) && ttl > 0)
    || (key !in View(remote, now) && Bounded(Entry("", LocalExpiry(now, defaultTtl, ttl)), key, remote, defaultTtl))
  }

  lemma ExpireExactly(local: Store, remote: Store, now: int, defaultTtl: int, key: string, ttl: int, admit: bool,
                      local': Store, remote': Store)
    requires Timed(local, remote, defaultTtl) &&
             ExpireStep(local, remote, now, defaultTtl, key, ttl, admit, local', remote')
    ensures Timed(local', remote', defaultTtl) <==> ExpireKeepsBound(local, remote, now, defaultTtl, key, ttl, admit)
  {
    forall k | k in local' && k != key ensures Bounded(local'[k], k, remote', defaultTtl) {
      assert Bounded(local[k], k, remote, defaultTtl);
    }
    if key in local' {
      assert Bounded(local[key], key, remote, defaultTtl);
    }
  }

  /** What the authoritative store holds after a counter step: nothing changes when it refuses. */
  function Counted(remote: Store, now: int, key: string, n: int): Store {
    match NextCounter(View(remote, now), key, n)
    case None => remote
    case Some(next) =>
      remote[key := Entry(FormatInt(next), if key in View(remote, now) then remote[key].expires else None)]
  }

  /** What the local cache counts to, wrapped to 64 bits, unless its entry is no number. */
  function LocalCount(local: Store, now: int, key: string, n: int): Option<int> {
    match LocalView(local, now, key)
    case None => Some(Wrap64(n))
    case Some(text) =>
      match ParseInt(text, 64)
      case None => None
      case Some(c) => Some(Wrap64(c + n))
  }

  /** What a counter step does to both stores, and what it answers. */
  predicate CountStep(local: Store, remote: Store, now: int, defaultTtl: int, key: string, n: int, admit: bool,
                      admitAgain: bool, local': Store, remote': Store, r: Option<int>) {
    var counted, stored := LocalCount(local, now, key, n), NextCounter(View(remote, now), key, n);
    if counted.None? then r == None && local' == local && remote' == remote
    else
      && r == (if stored.Some? then stored else counted)
      && remote' == Counted(remote, now, key, n)
      && local' == PutLocal(local, key, Entry(FormatInt(r.value), LocalExpiry(now, defaultTtl, 0)),
                            if stored.Some? then admitAgain else admit)
  }

  lemma CountCoherent(local: Store, remote: Store, now: int, defaultTtl: int, key: string, n: int, admit: bool,
                      admitAgain: bool, local': Store, remote': Store, r: Option<int>)
    requires CountStep(local, remote, now, defaultTtl, key, n, admit, admitAgain, local', remote', r)
    requires Coherent(local, remote) && FitsBits(n, 64)
    ensures r == NextCounter(View(remote, now), key, n) <==> CounterAgrees(local, remote, now, key, n)
    ensures CounterAgrees(local, remote, now, key, n) ==> Coherent(local', remote')
  {
    CounterFacts(remote, now, key, n);
  }

  lemma CountTimed(local: Store, remote: Store, now: int, defaultTtl: int, key: string, n: int, admit: bool,
                   admitAgain: bool, local': Store, remote': Store, r: Option<int>)
    requires CountStep(local, remote, now, defaultTtl, key, n, admit, admitAgain, local', remote', r)
    requires Timed(local, remote, defaultTtl) && FitsBits(n, 64)
    ensures Timed(local', remote', defaultTtl)
  {
    forall k | k in local' && k != key ensures Bounded(local'[k], k, remote', defaultTtl) {
      assert Bounded(local[k], k, remote, defaultTtl);
    }
    if key in local' && LocalCount(local, now, key, n).Some? {
      assert key in View(remote, now) || NextCounter(View(remote, now), key, n).Some?;
    }
  }

  /** When the two-step counter answers what the plain map would: the store accepts the step, or the local cache
      refuses it first. */
  predicate CounterAgrees(local: Store, remote: Store, now: int, key: string, n: int) {
    || NextCounter(View(remote, now), key, n).Some?
    || (LocalView(local, now, key).Some? && ParseInt(LocalView(local, now, key).value, 64).None?)
  }

  lemma CounterFacts(remote: Store, now: int, key: string, n: int)
    ensures NextCounter(View(remote, now), key, n).Some? && key in View(remote, now) ==>
              ParseInt(remote[key].value, 64).Some? &&
                CounterOf(FormatInt(NextCounter(View(remote, now), key, n).value)).Some?
  {
    if NextCounter(View(remote, now), key, n).Some? {
      ParseFormatted(NextCounter(View(remote, now), key, n).value, 64);
    }
  }

  lemma {:induction false} ViewSet(remote: Store, now: int, key: string, value: string)
    ensures View(remote[key := Entry(value, None)], now) == View(remote, now)[key := value]
  {
  }

  lemma {:induction false} ViewDrop(remote: Store, now: int, keys: seq<string>)
    ensures View(DropKeys(remote, keys), now) == DropKeys(View(remote, now), keys)
  {
  }

  lemma {:induction false} ViewCounted(local: Store, remote: Store, now: int, key: string, n: int)
    requires Coherent(local, remote) && NextCounter(View(remote, now), key, n).Some?
    ensures View(Counted(remote, now, key, n), now) ==
            View(remote, now)[key := FormatInt(NextCounter(View(remote, now), key, n).value)]
  {
  }

  lemma {:induction false} ViewAdd(remote: Store, now: int, news: Plain)
    ensures View(remote + map k | k in news :: Entry(news[k], None), now) == View(remote, now) + news
  {
  }

  lemma {:induction false} PutEntriesView(remote: Store, now: int, pairs: seq<string>)
    requires |pairs| % 2 == 0
    ensures View(PutEntries(remote, pairs), now) == PutPairs(View(remote, now), pairs)
  {
    ViewAdd(remote, now, PutPairs(map[], pairs));
    PutPairsOver(View(remote, now), pairs);
  }

  lemma {:induction false} PutPairsOver(m: Plain, pairs: seq<string>)
    requires |pairs| % 2 == 0
    ensures PutPairs(m, pairs) == m + PutPairs(map[], pairs)
    decreases |pairs|
  {
    if pairs != [] {
      PutPairsOver(m, pairs[..|pairs| - 2]);
    }
  }

  // ---------------------------------------------------------------- lifetimes and counters, spelled out

  /** How long the local cache serves an entry: up to and including the end of the lifetime that was asked for, or of
      the default lifetime if none was, and without end for a negative one. */
  lemma {:induction false} LocalLifetime(local: Store, key: string, value: string, now: int, later: int,
                                         defaultTtl: int, ttl: int)
    requires defaultTtl > 0
    ensures LocalView(PutLocal(local, key, Entry(value, LocalExpiry(now, defaultTtl, ttl)), true), later, key) ==
            if ttl > 0 then (if later <= now + ttl then Some(value) else None)
            else if ttl == 0 then (if later <= now + defaultTtl then Some(value) else None)
            else Some(value)
    ensures LocalView(PutLocal(local, key, Entry(value, LocalExpiry(now, defaultTtl, ttl)), false), later, key) == None
  {
  }

  /** What the authoritative store holds of an entry: it ends just before its expiry. */
  lemma {:induction false} StoreLifetime(remote: Store, key: string, value: string, expires: int, now: int)
    ensures Lookup(View(remote[key := Entry(value, Some(expires))], now), key) ==
            if now < expires then Some(value) else None
    ensures Lookup(View(remote[key := Entry(value, None)], now), key) == Some(value)
    ensures Lookup(View(remote - {key}, now), key) == None
  {
  }

  /** Of the pairs written under a key the last one stays. */
  lemma {:induction false} LastPairStays(m: Plain, pairs: seq<string>, i: nat)
    requires |pairs| % 2 == 0 && i % 2 == 0 && i < |pairs|
    requires forall j :: i < j < |pairs| && j % 2 == 0 ==> pairs[j] != pairs[i]
    ensures Lookup(PutPairs(m, pairs), pairs[i]) == Some(pairs[i + 1])
    decreases |pairs|
  {
    var n := |pairs| - 2;
    if i < n {
      LastPairStays(m, pairs[..n], i);
      assert pairs[n] != pairs[i];
    }
  }

  lemma {:induction false} OtherKeysStay(m: Plain, pairs: seq<string>, key: string)
    requires |pairs| % 2 == 0 && forall j :: 0 <= j < |pairs| && j % 2 == 0 ==> pairs[j] != key
    ensures Lookup(PutPairs(m, pairs), key) == Lookup(m, key)
    decreases |pairs|
  {
    if pairs != [] {
      OtherKeysStay(m, pairs[..|pairs| - 2], key);
      assert pairs[|pairs| - 2] != key;
    }
  }

  /** A counter that holds a number counts on from it, a missing one from zero, and a step out of 64 bits is refused;
      so is a step on any text that is no number in its usual form. */
  lemma {:induction false} CounterCounts(m: Plain, key: string, c: int, n: int)
    requires FitsBits(c, 64)
    ensures NextCounter(m[key := FormatInt(c)], key, n) == if FitsBits(c + n, 64) then Some(c + n) else None
    ensures NextCounter(m - {key}, key, n) == if FitsBits(n, 64) then Some(n) else None
  {
    ParseFormatted(c, 64);
  }

  lemma {:induction false} OnlyNumbersCount(m: Plain, key: string, n: int)
    requires key in m && forall c :: FitsBits(c, 64) ==> FormatInt(c) != m[key]
    ensures NextCounter(m, key, n) == None
  {
    var c := ParseInt(m[key], 64);
    assert c.Some? ==> FitsBits(c.value, 64);
  }

  /** Counting in 64 bits: the result is in range, differs by a multiple of the modulus, and is the number itself if
      that is in range. */
  lemma {:induction false} WrapIsModular(n: int)
    ensures FitsBits(Wrap64(n), 64) && (FitsBits(n, 64) ==> Wrap64(n) == n)
    ensures (Wrap64(n) - n) % 0x1_0000_0000_0000_0000 == 0
  {
  }

  /** The store counts in place: the lifetime of a counter stays, a new one has none, and other keys are untouched. */
  lemma {:induction false} CountKeepsLifetime(remote: Store, now: int, key: string, c: int, n: int,
                                              expires: Option<int>)
    requires FitsBits(c, 64) && FitsBits(n, 64) && FitsBits(c + n, 64) && (expires.Some? ==> now < expires.value)
    ensures var after := Counted(remote[key := Entry(FormatInt(c), expires)], now, key, n);
            after == remote[key := Entry(FormatInt(c + n), expires)]
    ensures Counted(remote - {key}, now, key, n) == remote[key := Entry(FormatInt(n), None)]
  {
    var before := remote[key := Entry(FormatInt(c), expires)];
    ParseFormatted(c, 64);
    assert View(before, now)[key] == FormatInt(c);
    assert before[key := Entry(FormatInt(c + n), expires)] == remote[key := Entry(FormatInt(c + n), expires)];
    assert (remote - {key})[key := Entry(FormatInt(n), None)] == remote[key := Entry(FormatInt(n), None)];
  }

  /** A local counter counts on from its number, or from zero. */
  lemma {:induction false} LocalCounts(local: Store, now: int, key: string, c: int, n: int)
    requires FitsBits(c, 64) && FitsBits(c + n, 64) && FitsBits(n, 64)
    ensures LocalCount(local[key := Entry(FormatInt(c), None)], now, key, n) == Some(c + n)
    ensures LocalCount(local - {key}, now, key, n) == Some(n)
  {
    ParseFormatted(c, 64);
    WrapIsModular(c + n);
    WrapIsModular(n);
  }
}
