/** The fixed-window rate limiter: what it allows per window, in any stretch of time, and per key. Times are in
    nanoseconds. */
module RateLimit {
  import opened Text

  const SECOND := 1_000_000_000

  datatype Config = Config(enabled: bool, limit: int, window: int)

  /** The configuration with the defaults in place: twenty requests, one minute. */
  function Normalized(cfg: Config): (r: Config)
    ensures r.limit >= 1 && r.window >= 1
    ensures cfg.limit > 0 ==> r.limit == cfg.limit
    ensures cfg.window > 0 ==> r.window == cfg.window
    ensures cfg.limit <= 0 ==> r.limit == 20
    ensures cfg.window <= 0 ==> r.window == 60_000_000_000
  {
    cfg.(limit := if cfg.limit <= 0 then 20 else cfg.limit,
         window := if cfg.window <= 0 then 60 * SECOND else cfg.window)
  }

  datatype Window = Window(count: nat, resetAt: int)

  predicate Ready(cfg: Config) {
    cfg.limit >= 1 && cfg.window >= 1
  }

  /** The window that a request at this moment falls into: a new one if there is none or it is over. */
  function Hit(cfg: Config, w: Option<Window>, now: int): Window {
    if w.None? || now > w.value.resetAt then Window(1, now + cfg.window)
    else w.value.(count := w.value.count + 1)
  }

  predicate Allows(cfg: Config, w: Window) {
    w.count <= cfg.limit
  }

  function Look(windows: map<string, Window>, key: string): Option<Window> {
    if key in windows then Some(windows[key]) else None
  }

  // ---------------------------------------------------------------- one key

  /** The decisions on a list of requests under one key. */
  function Decide(cfg: Config, w: Option<Window>, times: seq<int>): seq<bool>
    decreases |times|
  {
    if times == [] then []
    else
      var next := Hit(cfg, w, times[0]);
      [Allows(cfg, next)] + Decide(cfg, Some(next), times[1..])
  }

  /** How many requests are allowed from a moment on, for one window length. */
  function AllowedWithin(cfg: Config, w: Option<Window>, times: seq<int>, from: int): nat
    decreases |times|
  {
    if times == [] then 0
    else
      var next := Hit(cfg, w, times[0]);
      (if from <= times[0] <= from + cfg.window && Allows(cfg, next) then 1 else 0) +
      AllowedWithin(cfg, Some(next), times[1..], from)
  }

  /** How many decisions are positive between two moments. */
  function CountAllowed(times: seq<int>, decisions: seq<bool>, from: int, to: int): nat
    requires |times| == |decisions|
  {
    if times == [] then 0
    else (if from <= times[0] <= to && decisions[0] then 1 else 0) + CountAllowed(times[1..], decisions[1..], from, to)
  }

  lemma {:induction false} DecideLength(cfg: Config, w: Option<Window>, times: seq<int>)
    ensures |Decide(cfg, w, times)| == |times|
    decreases |times|
  {
    if times != [] {
      DecideLength(cfg, Some(Hit(cfg, w, times[0])), times[1..]);
    }
  }

  lemma {:induction false} AllowedIsCounted(cfg: Config, w: Option<Window>, times: seq<int>, from: int)
    ensures |Decide(cfg, w, times)| == |times|
    ensures CountAllowed(times, Decide(cfg, w, times), from, from + cfg.window) == AllowedWithin(cfg, w, times, from)
    decreases |times|
  {
    DecideLength(cfg, w, times);
    if times != [] {
      AllowedIsCounted(cfg, Some(Hit(cfg, w, times[0])), times[1..], from);
      assert Decide(cfg, w, times)[1..] == Decide(cfg, Some(Hit(cfg, w, times[0])), times[1..]);
    }
  }

  predicate Ordered(times: seq<int>) {
    forall i, j :: 0 <= i < j < |times| ==> times[i] <= times[j]
  }

  /** What a window has left. */
  function Left(cfg: Config, w: Window): nat {
    if w.count < cfg.limit then cfg.limit - w.count else 0
  }

  /** At most the limit per window: requests up to the reset use up what the window has left. */
  lemma {:induction false} WithinWindow(cfg: Config, w: Window, times: seq<int>, from: int)
    requires Ready(cfg) && Ordered(times) && from + cfg.window <= w.resetAt
    ensures AllowedWithin(cfg, Some(w), times, from) <= Left(cfg, w)
    decreases |times|
  {
    if times != [] {
      var next := Hit(cfg, Some(w), times[0]);
      if times[0] <= w.resetAt {
        WithinWindow(cfg, next, times[1..], from);
      } else {
        NothingLater(cfg, Some(next), times[1..], from);
      }
    }
  }

  lemma {:induction false} NothingLater(cfg: Config, w: Option<Window>, times: seq<int>, from: int)
    requires forall i :: 0 <= i < |times| ==> times[i] > from + cfg.window
    ensures AllowedWithin(cfg, w, times, from) == 0
    decreases |times|
  {
    if times != [] {
      NothingLater(cfg, Some(Hit(cfg, w, times[0])), times[1..], from);
    }
  }

  /** From inside the stretch: the rest of this window and at most one more. */
  lemma {:induction false} FromInside(cfg: Config, w: Option<Window>, times: seq<int>, from: int)
    requires Ready(cfg) && Ordered(times) && forall i :: 0 <= i < |times| ==> times[i] >= from
    ensures AllowedWithin(cfg, w, times, from) <= (if w.None? then 0 else Left(cfg, w.value)) + cfg.limit
    decreases |times|
  {
    if times != [] {
      var next := Hit(cfg, w, times[0]);
      if w.Some? && times[0] <= w.value.resetAt {
        FromInside(cfg, Some(next), times[1..], from);
      } else {
        WithinWindow(cfg, next, times[1..], from);
      }
    }
  }

  /** In any closed stretch of one window length, fewer than twice the limit are allowed. */
  lemma {:induction false} StretchBound(cfg: Config, w: Option<Window>, times: seq<int>, from: int)
    requires Ready(cfg) && Ordered(times) && (w.Some? ==> w.value.count >= 1)
    ensures AllowedWithin(cfg, w, times, from) <= 2 * cfg.limit - 1
    decreases |times|
  {
    if times != [] {
      if times[0] < from {
        StretchBound(cfg, Some(Hit(cfg, w, times[0])), times[1..], from);
      } else {
        FromInside(cfg, w, times, from);
      }
    }
  }

  /** Up to its reset a window lets through exactly the first requests that it has room for. */
  lemma {:induction false} RoomDecides(cfg: Config, w: Window, times: seq<int>, i: nat)
    requires i < |times| && forall j :: 0 <= j <= i ==> times[j] <= w.resetAt
    ensures |Decide(cfg, Some(w), times)| == |times|
    ensures Decide(cfg, Some(w), times)[i] <==> w.count + i < cfg.limit
    decreases |times|
  {
    DecideLength(cfg, Some(w), times);
    var next := Hit(cfg, Some(w), times[0]);
    assert times[0] <= w.resetAt;
    if i > 0 {
      forall j | 0 <= j <= i - 1 ensures times[1..][j] <= next.resetAt {
        assert times[1..][j] == times[j + 1];
      }
      RoomDecides(cfg, next, times[1..], i - 1);
    }
  }

  /** A request that finds no window, or one that is over, opens one: of the requests up to one window length later
      exactly the first ones, as many as the limit, are let through. */
  lemma {:induction false} FirstOnesPass(cfg: Config, w: Option<Window>, times: seq<int>, i: nat)
    requires Ready(cfg) && i < |times| && (w.Some? ==> w.value.resetAt < times[0])
    requires forall j :: 0 <= j <= i ==> times[j] <= times[0] + cfg.window
    ensures |Decide(cfg, w, times)| == |times| && (Decide(cfg, w, times)[i] <==> i < cfg.limit)
  {
    DecideLength(cfg, w, times);
    if i > 0 {
      var next := Hit(cfg, w, times[0]);
      forall j | 0 <= j <= i - 1 ensures times[1..][j] <= next.resetAt {
        assert times[1..][j] == times[j + 1];
      }
      RoomDecides(cfg, next, times[1..], i - 1);
    }
  }

  // ---------------------------------------------------------------- the bound is reached

  function Repeat(t: int, n: nat): (r: seq<int>)
    ensures |r| == n && forall i :: 0 <= i < n ==> r[i] == t
  {
    seq(n, i => t)
  }

  /** Some requests at one moment of a window that has that many left, and more requests after. */
  lemma {:induction false} Burst(cfg: Config, w: Window, t: int, n: nat, more: seq<int>, from: int)
    requires t <= w.resetAt && w.count + n <= cfg.limit && from <= t <= from + cfg.window
    ensures AllowedWithin(cfg, Some(w), Repeat(t, n) + more, from) ==
            n + AllowedWithin(cfg, Some(w.(count := w.count + n)), more, from)
    decreases n
  {
    if n == 0 {
      assert Repeat(t, 0) + more == more;
    } else {
      var times := Repeat(t, n) + more;
      assert times[0] == t && times[1..] == Repeat(t, n - 1) + more;
      Burst(cfg, w.(count := w.count + 1), t, n - 1, more, from);
    }
  }

  lemma {:induction false} OpensAndMore(cfg: Config, w: Option<Window>, t: int, more: seq<int>, from: int)
    requires Ready(cfg) && (w.Some? ==> w.value.resetAt < t)
    ensures AllowedWithin(cfg, w, [t] + more, from) ==
            (if from <= t <= from + cfg.window then 1 else 0) +
            AllowedWithin(cfg, Some(Window(1, t + cfg.window)), more, from)
  {
    assert ([t] + more)[1..] == more;
  }

  /** The bound is exact: one request opens a window, the rest of its allowance comes at its very end, and a full
      new window follows at once. */
  lemma {:induction false} StretchBoundIsReached(cfg: Config)
    requires Ready(cfg)
    ensures var w := cfg.window;
            var times := [0] + (Repeat(w, cfg.limit - 1) + ([w + 1] + (Repeat(w + 1, cfg.limit - 1) + [])));
            Ordered(times) && AllowedWithin(cfg, None, times, w) == 2 * cfg.limit - 1
  {
    var w, n := cfg.window, cfg.limit - 1;
    var last := Repeat(w + 1, n) + [];
    var second := [w + 1] + last;
    OpensAndMore(cfg, None, 0, Repeat(w, n) + second, w);
    Burst(cfg, Window(1, w), w, n, second, w);
    OpensAndMore(cfg, Some(Window(1 + n, w)), w + 1, last, w);
    Burst(cfg, Window(1, w + 1 + w), w + 1, n, [], w);
  }

  // ---------------------------------------------------------------- all keys

  datatype Request = Request(key: string, at: int)

  /** The decisions on mixed traffic. */
  function Serve(cfg: Config, windows: map<string, Window>, requests: seq<Request>): seq<bool>
    decreases |requests|
  {
    if requests == [] then []
    else
      var r := requests[0];
      var next := Hit(cfg, Look(windows, r.key), r.at);
      [Allows(cfg, next)] + Serve(cfg, windows[r.key := next], requests[1..])
  }

  lemma {:induction false} ServeNext(cfg: Config, windows: map<string, Window>, requests: seq<Request>, i: nat)
    requires i < |requests|
    ensures var next := Hit(cfg, Look(windows, requests[i].key), requests[i].at);
            Serve(cfg, windows, requests[i..]) ==
            [Allows(cfg, next)] + Serve(cfg, windows[requests[i].key := next], requests[i + 1..])
  {
    assert requests[i..][0] == requests[i] && requests[i..][1..] == requests[i + 1..];
  }

  lemma {:induction false} ServedSoFar(done: seq<bool>, next: bool, rest: seq<bool>)
    ensures done + ([next] + rest) == (done + [next]) + rest
  {
  }

  function TimesOf(requests: seq<Request>, key: string): seq<int> {
    if requests == [] then []
    else (if requests[0].key == key then [requests[0].at] else []) + TimesOf(requests[1..], key)
  }

  function DecisionsOf(requests: seq<Request>, decisions: seq<bool>, key: string): seq<bool>
    requires |decisions| == |requests|
  {
    if requests == [] then []
    else (if requests[0].key == key then [decisions[0]] else []) + DecisionsOf(requests[1..], decisions[1..], key)
  }

  lemma {:induction false} ServeLength(cfg: Config, windows: map<string, Window>, requests: seq<Request>)
    ensures |Serve(cfg, windows, requests)| == |requests|
    decreases |requests|
  {
    if requests != [] {
      var r := requests[0];
      ServeLength(cfg, windows[r.key := Hit(cfg, Look(windows, r.key), r.at)], requests[1..]);
    }
  }

  /** Keys do not influence each other: the decisions under a key are those on its own requests alone. */
  lemma {:induction false} KeysAreIndependent(cfg: Config, windows: map<string, Window>, requests: seq<Request>,
                                              key: string)
    ensures |Serve(cfg, windows, requests)| == |requests|
    ensures DecisionsOf(requests, Serve(cfg, windows, requests), key) ==
            Decide(cfg, Look(windows, key), TimesOf(requests, key))
    decreases |requests|
  {
    ServeLength(cfg, windows, requests);
    if requests != [] {
      var r := requests[0];
      var next := Hit(cfg, Look(windows, r.key), r.at);
      KeysAreIndependent(cfg, windows[r.key := next], requests[1..], key);
      assert Serve(cfg, windows, requests)[1..] == Serve(cfg, windows[r.key := next], requests[1..]);
      if r.key == key {
        assert TimesOf(requests, key)[1..] == TimesOf(requests[1..], key);
      } else {
        assert TimesOf(requests, key) == TimesOf(requests[1..], key);
        assert Look(windows[r.key := next], key) == Look(windows, key);
      }
    }
  }

  predicate InOrder(requests: seq<Request>) {
    forall i, j :: 0 <= i < j < |requests| ==> requests[i].at <= requests[j].at
  }

  lemma {:induction false} TimesInOrder(requests: seq<Request>, key: string)
    requires InOrder(requests)
    ensures Ordered(TimesOf(requests, key))
    ensures forall t :: t in TimesOf(requests, key) ==> exists i :: 0 <= i < |requests| && requests[i].at == t
  {
    if requests != [] {
      var rest := TimesOf(requests[1..], key);
      TimesInOrder(requests[1..], key);
      forall t | t in rest ensures exists i :: 0 <= i < |requests| && requests[i].at == t {
        var i :| 0 <= i < |requests[1..]| && requests[1..][i].at == t;
        assert requests[i + 1].at == t;
      }
      forall k | 0 <= k < |rest| ensures requests[0].at <= rest[k] {
        assert rest[k] in rest;
      }
      assert requests[0].key == key ==> requests[0].at in TimesOf(requests, key);
    }
  }

  predicate Counting(windows: map<string, Window>) {
    forall k :: k in windows ==> windows[k].count >= 1
  }

  /** For requests processed in the order of their times, any mix of keys, any key and any closed stretch of one
      window length: fewer than twice the limit of the key's requests are allowed. */
  lemma TrafficBound(cfg: Config, windows: map<string, Window>, requests: seq<Request>, key: string, from: int)
    requires Ready(cfg) && InOrder(requests) && Counting(windows)
    ensures |Serve(cfg, windows, requests)| == |requests|
    ensures var decisions := DecisionsOf(requests, Serve(cfg, windows, requests), key);
            |decisions| == |TimesOf(requests, key)| &&
            CountAllowed(TimesOf(requests, key), decisions, from, from + cfg.window) <= 2 * cfg.limit - 1
  {
    KeysAreIndependent(cfg, windows, requests, key);
    TimesInOrder(requests, key);
    AllowedIsCounted(cfg, Look(windows, key), TimesOf(requests, key), from);
    StretchBound(cfg, Look(windows, key), TimesOf(requests, key), from);
  }

  // ---------------------------------------------------------------- the handler

  /** The closure that RateLimit returns, with the windows it keeps. */
  class Limiter {
    const cfg: Config
    var windows: map<string, Window>

    constructor (cfg: Config)
      ensures this.cfg == Normalized(cfg) && windows == map[]
    {
      this.cfg := Normalized(cfg);
      windows := map[];
    }

    /** One request. The second clock reading is for the Retry-After header: the whole seconds that are left of the
        window, and at least one. A disabled limiter passes everything and keeps nothing. */
    method Handle(key: string, now: int, later: int) returns (allowed: bool, retryAfter: int)
      requires Ready(cfg)
      modifies this
      ensures !cfg.enabled ==> allowed && windows == old(windows)
      ensures cfg.enabled ==> windows == old(windows)[key := Hit(cfg, Look(old(windows), key), now)]
      ensures cfg.enabled ==> (allowed <==> Allows(cfg, windows[key]))
      ensures cfg.enabled && (key !in old(windows) || now > old(windows)[key].resetAt) ==> allowed
      ensures cfg.enabled && windows[key].resetAt - later >= SECOND ==>
                retryAfter * SECOND <= windows[key].resetAt - later < (retryAfter + 1) * SECOND
      ensures !cfg.enabled || windows[key].resetAt - later < SECOND ==> retryAfter == 1
    {
      if !cfg.enabled {
        return true, 1;
      }
      var window := if key in windows then windows[key] else Window(0, 0);
      if key !in windows || now > window.resetAt {
        window := Window(0, now + cfg.window);
      }
      window := window.(count := window.count + 1);
      windows := windows[key := window];
      allowed := window.count <= cfg.limit;
      var rest := window.resetAt - later;
      retryAfter := if rest >= 0 then rest / SECOND else 0;
      if retryAfter < 1 {
        retryAfter := 1;
      }
    }

    /** A stream of requests. */
    method HandleAll(requests: seq<Request>) returns (decisions: seq<bool>)
      requires Ready(cfg) && cfg.enabled
      modifies this
      ensures decisions == Serve(cfg, old(windows), requests)
      ensures old(Counting(windows)) ==> Counting(windows)
    {
      decisions := [];
      ghost var all := Serve(cfg, windows, requests);
      assert requests[0..] == requests;
      for i := 0 to |requests|
        invariant all == decisions + Serve(cfg, windows, requests[i..])
        invariant old(Counting(windows)) ==> Counting(windows)
      {
        ghost var before := windows;
        var allowed, _ := Handle(requests[i].key, requests[i].at, requests[i].at);
        ServeNext(cfg, before, requests, i);
        ServedSoFar(decisions, allowed, Serve(cfg, windows, requests[i + 1..]));
        decisions := decisions + [allowed];
      }
      assert requests[|requests|..] == [];
    }
  }
}
