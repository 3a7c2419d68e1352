/**
 The sliding-window rate limiter: a pruned sorted set against the full history of
 accepted requests. Scores are the API's clock, key expiry is Redis's; all in milliseconds.
 */
module RateLimiter {

  /** One key: its sorted set (member to score) and the time PEXPIRE removes it. */
  datatype Window = Window(zset: map<nat, int>, expireAt: int)

  datatype Request = Request(id: nat, api: int, redis: int)

  datatype Config = Config(window: nat, limit: int)

  function AliveSet(w: Window, redis: int): map<nat, int> {
    if redis < w.expireAt then w.zset else map[]
  }

  /** ZREMRANGEBYSCORE key 0 upTo */
  function Prune(zset: map<nat, int>, upTo: int): map<nat, int> {
    map id | id in zset && !(0 <= zset[id] <= upTo) :: zset[id]
  }

  function Script(w: Window, c: Config, r: Request): (Window, int, bool) {
    var zset := Prune(AliveSet(w, r.redis), r.api - c.window);
    if |zset| >= c.limit then (Window(zset, w.expireAt), |zset|, false)
    else (Window(zset[r.id := r.api], r.redis + c.window), |zset| + 1, true)
  }

  /** The limiter together with the history it is measured against. */
  datatype Log = Log(window: Window, accepted: map<nat, Request>)

  class SlidingWindow {
    const config: Config
    var zset: map<nat, int>
    var expireAt: int
    ghost var accepted: map<nat, Request>

    constructor (config: Config)
      ensures this.config == config && View() == Empty()
    {
      this.config := config;
      zset, expireAt, accepted := map[], 0, map[];
    }

    ghost function View(): Log
      reads this
    {
      Log(Window(zset, expireAt), accepted)
    }

    /** One EVAL of the script, command by command. */
    method Check(r: Request) returns (count: int, allowed: bool)
      modifies this
      ensures View() == Step(old(View()), config, r)
      ensures var (_, n, ok) := Script(old(View()).window, config, r); count == n && allowed == ok
    {
      if expireAt <= r.redis {
        zset := map[];
      }
      zset := Prune(zset, r.api - config.window);
      count := |zset|;
      if count >= config.limit {
        return count, false;
      }
      zset := zset[r.id := r.api];
      expireAt := r.redis + config.window;
      accepted := accepted[r.id := r];
      return count + 1, true;
    }
  }

  function Empty(): Log { Log(Window(map[], 0), map[]) }

  function Step(l: Log, c: Config, r: Request): Log {
    var (window, _, allowed) := Script(l.window, c, r);
    Log(window, if allowed then l.accepted[r.id := r] else l.accepted)
  }

  function Run(c: Config, trace: seq<Request>): Log {
    if trace == [] then Empty() else Step(Run(c, trace[..|trace| - 1]), c, trace[|trace| - 1])
  }

  /** Fresh ids, a Redis clock that never goes back, API clocks within `skew` of it. */
  predicate Legal(trace: seq<Request>, skew: nat) {
    && (forall i, j :: 0 <= i < j < |trace| ==> trace[i].id != trace[j].id && trace[i].redis <= trace[j].redis)
    && (forall i :: 0 <= i < |trace| ==>
          0 <= trace[i].api && trace[i].redis - skew <= trace[i].api <= trace[i].redis + skew)
  }

  // ---------------------------------------------------------------- what the set still knows

  function InWindow(accepted: map<nat, Request>, from: int, length: int): set<nat> {
    set id | id in accepted && from <= accepted[id].redis < from + length
  }

  /** Every accepted request missing from the set is at least window - 2 skew old; at `now` or later. */
  ghost predicate Retains(l: Log, c: Config, skew: nat, now: int) {
    && (forall id :: id in l.window.zset ==> id in l.accepted && l.window.zset[id] == l.accepted[id].api)
    && (forall id :: id in l.accepted ==>
          && l.accepted[id].id == id
          && l.accepted[id].redis <= now
          && 0 <= l.accepted[id].api
          && l.accepted[id].redis - skew <= l.accepted[id].api <= l.accepted[id].redis + skew
          && l.accepted[id].redis + c.window <= l.window.expireAt)
    && (forall id :: id in l.accepted && id !in l.window.zset ==>
          l.accepted[id].redis <= now - (c.window - 2 * skew))
  }

  lemma StepRetains(l: Log, c: Config, skew: nat, now: int, r: Request)
    requires Retains(l, c, skew, now) && now <= r.redis && r.id !in l.accepted
    requires 0 <= r.api && r.redis - skew <= r.api <= r.redis + skew
    ensures Retains(Step(l, c, r), c, skew, r.redis)
  {
  }

  ghost predicate WindowsWithin(l: Log, c: Config, length: int) {
    forall from: int :: |InWindow(l.accepted, from, length)| <= if c.limit < 0 then 0 else c.limit
  }

  lemma SubsetsAreSmaller<T>(a: set<T>, b: set<T>)
    requires a <= b
    ensures |a| <= |b|
  {
    if a != {} {
      var x :| x in a;
      SubsetsAreSmaller(a - {x}, b - {x});
    }
  }

  /** What was accepted in a span that reaches up to a new request is still in the set it counts. */
  lemma RecentAreKept(l: Log, c: Config, skew: nat, now: int, r: Request, from: int)
    requires Retains(l, c, skew, now) && now <= r.redis
    requires 0 <= r.api && r.redis - skew <= r.api <= r.redis + skew
    requires r.redis < from + c.window - 2 * skew
    ensures |InWindow(l.accepted, from, c.window - 2 * skew)|
      <= |Prune(AliveSet(l.window, r.redis), r.api - c.window)|
  {
    var kept := Prune(AliveSet(l.window, r.redis), r.api - c.window);
    assert InWindow(l.accepted, from, c.window - 2 * skew) <= kept.Keys;
    SubsetsAreSmaller(InWindow(l.accepted, from, c.window - 2 * skew), kept.Keys);
    assert |kept| == |kept.Keys|;
  }

  lemma StepKeepsWindow(l: Log, c: Config, skew: nat, now: int, r: Request, from: int)
    requires Retains(l, c, skew, now) && now <= r.redis && r.id !in l.accepted
    requires 0 <= r.api && r.redis - skew <= r.api <= r.redis + skew
    requires |Prune(AliveSet(l.window, r.redis), r.api - c.window)| < c.limit
    ensures var length := c.window - 2 * skew; var after := l.accepted[r.id := r];
      |InWindow(after, from, length)| <= c.limit || InWindow(after, from, length) == InWindow(l.accepted, from, length)
  {
    hide *;
    OneMoreInWindow(l.accepted, r, from, c.window - 2 * skew);
    if from <= r.redis < from + (c.window - 2 * skew) {
      RecentAreKept(l, c, skew, now, r, from);
    }
  }

  lemma OneMoreInWindow(accepted: map<nat, Request>, r: Request, from: int, length: int)
    requires r.id !in accepted
    ensures InWindow(accepted[r.id := r], from, length)
      == InWindow(accepted, from, length) + if from <= r.redis < from + length then {r.id} else {}
  {
  }

  lemma StepKeepsWindows(l: Log, c: Config, skew: nat, now: int, r: Request)
    requires Retains(l, c, skew, now) && now <= r.redis && r.id !in l.accepted
    requires 0 <= r.api && r.redis - skew <= r.api <= r.redis + skew
    requires WindowsWithin(l, c, c.window - 2 * skew)
    ensures WindowsWithin(Step(l, c, r), c, c.window - 2 * skew)
  {
    hide Retains, InWindow, Prune, AliveSet;
    var length, after := c.window - 2 * skew, Step(l, c, r).accepted;
    if Script(l.window, c, r).2 {
      forall from: int ensures |InWindow(after, from, length)| <= if c.limit < 0 then 0 else c.limit
      {
        StepKeepsWindow(l, c, skew, now, r, from);
      }
    }
  }

  lemma RetainsLater(l: Log, c: Config, skew: nat, now: int, later: int)
    requires Retains(l, c, skew, now) && now <= later
    ensures Retains(l, c, skew, later)
  {
  }

  function Ids(trace: seq<Request>): set<nat> {
    set r | r in trace :: r.id
  }

  lemma {:induction false} AcceptedComeFromTheTrace(c: Config, trace: seq<Request>)
    ensures Run(c, trace).accepted.Keys <= Ids(trace)
  {
    if trace != [] {
      var n := |trace| - 1;
      AcceptedComeFromTheTrace(c, trace[..n]);
      assert Ids(trace) == Ids(trace[..n]) + {trace[n].id} by {
        assert trace == trace[..n] + [trace[n]];
      }
    }
  }

  lemma LegalPrefix(trace: seq<Request>, skew: nat)
    requires Legal(trace, skew) && trace != []
    ensures var n := |trace| - 1;
      && Legal(trace[..n], skew) && trace[n].id !in Ids(trace[..n])
      && (n > 0 ==> trace[n - 1].redis <= trace[n].redis)
  {
  }

  lemma {:induction false} InvariantsOverRuns(c: Config, trace: seq<Request>, skew: nat, now: int)
    requires Legal(trace, skew) && (trace != [] ==> trace[|trace| - 1].redis <= now)
    ensures Retains(Run(c, trace), c, skew, now)
    ensures WindowsWithin(Run(c, trace), c, c.window - 2 * skew)
  {
    if trace == [] {
      var length := c.window - 2 * skew;
      assert forall from: int :: InWindow(Empty().accepted, from, length) == {};
    } else {
      var n := |trace| - 1;
      var before, r := Run(c, trace[..n]), trace[n];
      LegalPrefix(trace, skew);
      assert 0 <= r.api && r.redis - skew <= r.api <= r.redis + skew;
      AcceptedComeFromTheTrace(c, trace[..n]);
      InvariantsOverRuns(c, trace[..n], skew, r.redis);
      hide Legal, Retains, WindowsWithin, Ids;
      StepRetains(before, c, skew, r.redis, r);
      StepKeepsWindows(before, c, skew, r.redis, r);
      RetainsLater(Run(c, trace), c, skew, r.redis, now);
    }
  }

  /**
   With distinct request ids and API clocks within `skew` of Redis, no half-open span of
   window - 2 skew milliseconds of Redis time ever holds more than `limit` accepted requests.
   */
  lemma NoSpanExceedsTheLimit(c: Config, trace: seq<Request>, skew: nat, from: int)
    requires Legal(trace, skew)
    ensures |InWindow(Run(c, trace).accepted, from, c.window - 2 * skew)| <= if c.limit < 0 then 0 else c.limit
  {
    InvariantsOverRuns(c, trace, skew, if trace == [] then 0 else trace[|trace| - 1].redis);
  }

  /** `n` requests at once, from an API whose clock is `skew` behind. */
  function Burst(n: nat, skew: nat): (trace: seq<Request>)
    ensures |trace| == n
    ensures forall i :: 0 <= i < n ==> trace[i] == Request(i, 0, skew)
  {
    if n == 0 then [] else Burst(n - 1, skew) + [Request(n - 1, 0, skew)]
  }

  /** All of a burst accepted. */
  ghost predicate AllAccepted(l: Log, skew: nat, n: nat) {
    && (forall id: nat :: id in l.accepted <==> id < n)
    && (forall id :: id in l.accepted ==> l.accepted[id] == Request(id, 0, skew))
    && (forall id :: id in l.window.zset ==> id < n && l.window.zset[id] == 0)
  }

  function Below(n: nat): (ids: set<nat>)
    ensures |ids| == n && forall i: nat :: i in ids <==> i < n
  {
    if n == 0 then {} else Below(n - 1) + {n - 1}
  }

  lemma OneMoreAccepted(l: Log, c: Config, skew: nat, n: nat)
    requires AllAccepted(l, skew, n) && n < c.limit
    ensures AllAccepted(Step(l, c, Request(n, 0, skew)), skew, n + 1)
  {
    var kept := Prune(AliveSet(l.window, skew), 0 - c.window);
    assert |kept| < c.limit by {
      assert kept.Keys <= Below(n);
      SubsetsAreSmaller(kept.Keys, Below(n));
      assert |kept| == |kept.Keys|;
    }
  }

  lemma {:induction false} BurstIsAccepted(c: Config, skew: nat, n: nat)
    requires n <= c.limit
    ensures AllAccepted(Run(c, Burst(n, skew)), skew, n)
  {
    if n == 0 {
      assert Run(c, Burst(0, skew)) == Empty();
    } else {
      BurstIsAccepted(c, skew, n - 1);
      assert Burst(n, skew)[..n - 1] == Burst(n - 1, skew);
      OneMoreAccepted(Run(c, Burst(n - 1, skew)), c, skew, n - 1);
    }
  }

  /** By the time of the last request the whole burst has left the script's window. */
  lemma LastIsAccepted(l: Log, c: Config, skew: nat, n: nat)
    requires AllAccepted(l, skew, n) && c.limit >= 1
    ensures var last := Request(n, c.window, c.window - skew);
      Step(l, c, last).accepted == l.accepted[n := last]
  {
    assert Prune(AliveSet(l.window, c.window - skew), 0) == map[];
  }

  lemma BurstThenLast(c: Config, skew: nat, n: nat, last: Request)
    requires last == Request(n, c.window, c.window - skew) && c.window >= 2 * skew
    ensures Legal(Burst(n, skew) + [last], skew)
    ensures Run(c, Burst(n, skew) + [last]) == Step(Run(c, Burst(n, skew)), c, last)
  {
    hide Step, Burst;
    assert (Burst(n, skew) + [last])[..n] == Burst(n, skew);
  }

  lemma AllWithTheLast(l: Log, c: Config, skew: nat, n: nat)
    requires AllAccepted(l, skew, n) && c.window >= 2 * skew
    ensures var accepted := l.accepted[n := Request(n, c.window, c.window - skew)];
      InWindow(accepted, skew, c.window - 2 * skew + 1) == Below(n + 1)
  {
    WholeSpan(l.accepted[n := Request(n, c.window, c.window - skew)], c, skew, n);
    hide InWindow;
  }

  lemma WholeSpan(accepted: map<nat, Request>, c: Config, skew: nat, n: nat)
    requires c.window >= 2 * skew && (forall id: nat :: id in accepted <==> id <= n)
    requires forall id :: id in accepted ==> skew <= accepted[id].redis <= c.window - skew
    ensures InWindow(accepted, skew, c.window - 2 * skew + 1) == Below(n + 1)
  {
  }

  /**
   The bound on the span is sharp: for every limit, window and skew, a span one millisecond longer can
   hold one accepted request more than the limit. The first API is as far behind, and the last as far
   ahead, as the skew allows.
   */
  lemma LongerSpansCanExceed(c: Config, skew: nat) returns (trace: seq<Request>)
    requires c.limit >= 1 && c.window >= 2 * skew
    ensures Legal(trace, skew)
    ensures |InWindow(Run(c, trace).accepted, skew, c.window - 2 * skew + 1)| == c.limit + 1
  {
    var n: nat, last := c.limit, Request(c.limit, c.window, c.window - skew);
    trace := Burst(n, skew) + [last];
    BurstThenLast(c, skew, n, last);
    assert Legal(trace, skew) && Run(c, trace) == Step(Run(c, Burst(n, skew)), c, last);
    hide *;
    BurstIsAccepted(c, skew, n);
    LastIsAccepted(Run(c, Burst(n, skew)), c, skew, n);
    AllWithTheLast(Run(c, Burst(n, skew)), c, skew, n);
  }

  // ---------------------------------------------------------------- one clock

  function RecentlyAccepted(accepted: map<nat, Request>, now: int, window: int): set<nat> {
    set id | id in accepted && now - window < accepted[id].api <= now
  }

  lemma KeptAreTheRecent(l: Log, c: Config, r: Request)
    requires Retains(l, c, 0, r.redis) && 0 <= r.api == r.redis
    ensures var kept := Prune(AliveSet(l.window, r.redis), r.api - c.window);
      && kept == Prune(l.window.zset, r.api - c.window)
      && |kept| == |RecentlyAccepted(l.accepted, r.api, c.window)|
  {
    var kept := Prune(AliveSet(l.window, r.redis), r.api - c.window);
    assert kept.Keys == RecentlyAccepted(l.accepted, r.api, c.window);
    assert |kept| == |kept.Keys|;
  }

  /**
   On one clock every decision is the count of accepted requests in (now - window, now],
   and it would be the same if PEXPIRE never removed the key.
   */
  lemma DecisionsCountTheHistory(c: Config, trace: seq<Request>, r: Request)
    requires Legal(trace + [r], 0)
    ensures var l := Run(c, trace); var recent := |RecentlyAccepted(l.accepted, r.api, c.window)|;
      && Script(l.window, c, r).2 == (recent < c.limit)
      && Script(l.window, c, r).1 == (if recent < c.limit then recent + 1 else recent)
      && Prune(AliveSet(l.window, r.redis), r.api - c.window) == Prune(l.window.zset, r.api - c.window)
  {
    hide Legal, Run, Retains, WindowsWithin, Prune, AliveSet, RecentlyAccepted;
    LegalOnOneClock(trace, r);
    InvariantsOverRuns(c, trace, 0, r.redis);
    KeptAreTheRecent(Run(c, trace), c, r);
  }

  lemma LegalOnOneClock(trace: seq<Request>, r: Request)
    requires Legal(trace + [r], 0)
    ensures Legal(trace, 0) && 0 <= r.api == r.redis && (trace != [] ==> trace[|trace| - 1].redis <= r.redis)
  {
    var all := trace + [r];
    assert all[|trace|] == r;
    LegalPrefix(all, 0);
    assert all[..|all| - 1] == trace;
  }
}
