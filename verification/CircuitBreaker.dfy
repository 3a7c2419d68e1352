/**
 The circuit breaker: its expiring counters against the trace of what happened, and the
 spacing of attempts. Times are in milliseconds; calls are taken one at a time.
 */
module CircuitBreaker {

  const COUNTER_TTL := 60_000

  datatype Phase = Closed | Open | HalfOpen

  datatype Config = Config(failureThreshold: int, cooldown: nat, successThreshold: int)

  /** A counter key: its value, and when EXPIRE removes it. A missing key is Counter(0, 0). */
  datatype Counter = Counter(count: nat, expireAt: int) {
    function Live(now: int): nat {
      if now < expireAt then count else 0
    }

    /** INCR, then EXPIRE 60 */
    function Incremented(now: int): Counter {
      Counter(Live(now) + 1, now + COUNTER_TTL)
    }
  }

  const MISSING := Counter(0, 0)

  datatype OpenedAt = Never | At(time: int)

  datatype Breaker = Breaker(phase: Phase, failures: Counter, successes: Counter, openedAt: OpenedAt)

  /** An observer's record: how each attempt ended and in which phase, and every transition. */
  datatype Entry =
    | Failed(at: int) | Succeeded(at: int)
    | HalfOpenFailed(at: int) | HalfOpenSucceeded(at: int)
    | Opened(at: int) | Reclosed(at: int)

  datatype Reply = Returned | Raised | FailedFast

  /** A call that starts, runs the wrapped function if allowed to, and ends. */
  datatype Call = Call(start: int, end: int, succeeds: bool)

  datatype World = World(breaker: Breaker, log: seq<Entry>)

  // ---------------------------------------------------------------- the breaker as a function

  function OpenCircuit(w: World, now: int): World {
    World(w.breaker.(phase := Open, openedAt := At(now), failures := MISSING), w.log + [Opened(now)])
  }

  function OnSuccess(w: World, c: Config, now: int): World {
    var b := w.breaker;
    match b.phase
    case HalfOpen =>
      var successes := b.successes.Incremented(now);
      var log := w.log + [HalfOpenSucceeded(now)];
      if successes.count >= c.successThreshold then
        World(Breaker(Closed, MISSING, MISSING, Never), log + [Reclosed(now)])
      else World(b.(successes := successes), log)
    case Closed => World(b.(failures := MISSING), w.log + [Succeeded(now)])
    case Open => w
  }

  function OnFailure(w: World, c: Config, now: int): World {
    var b := w.breaker;
    if b.phase == HalfOpen then OpenCircuit(w.(log := w.log + [HalfOpenFailed(now)]), now)
    else
      var failures := b.failures.Incremented(now);
      var counted := World(b.(failures := failures), w.log + [Failed(now)]);
      if failures.count >= c.failureThreshold then OpenCircuit(counted, now) else counted
  }

  predicate CoolingDown(b: Breaker, c: Config, now: int) {
    b.phase == Open && (b.openedAt == Never || now - b.openedAt.time < c.cooldown)
  }

  function Attempt(w: World, c: Config, call: Call): (World, Reply) {
    if CoolingDown(w.breaker, c, call.start) then (w, FailedFast)
    else
      var ready := if w.breaker.phase == Open then w.(breaker := w.breaker.(phase := HalfOpen)) else w;
      if call.succeeds then (OnSuccess(ready, c, call.end), Returned) else (OnFailure(ready, c, call.end), Raised)
  }

  function Fresh(): World { World(Breaker(Closed, MISSING, MISSING, Never), []) }

  function RunFrom(w: World, c: Config, calls: seq<Call>): World {
    if calls == [] then w else Attempt(RunFrom(w, c, calls[..|calls| - 1]), c, calls[|calls| - 1]).0
  }

  function Run(c: Config, calls: seq<Call>): World { RunFrom(Fresh(), c, calls) }

  /** One at a time, on a clock that does not go back. */
  predicate Sequential(calls: seq<Call>) {
    && (forall i :: 0 <= i < |calls| ==> 0 <= calls[i].start <= calls[i].end)
    && (forall i, j :: 0 <= i < j < |calls| ==> calls[i].end <= calls[j].start)
  }

  // ---------------------------------------------------------------- the breaker as an object

  class DistributedBreaker {
    const config: Config
    var phase: Phase
    var failures: Counter
    var successes: Counter
    var openedAt: OpenedAt
    ghost var log: seq<Entry>

    constructor (config: Config)
      ensures this.config == config && View() == Fresh()
    {
      this.config := config;
      phase, failures, successes, openedAt, log := Closed, MISSING, MISSING, Never, [];
    }

    ghost function View(): World
      reads this
    {
      World(Breaker(phase, failures, successes, openedAt), log)
    }

    method Open(now: int)
      modifies this
      ensures View() == OpenCircuit(old(View()), now)
    {
      phase := Phase.Open;
      openedAt := At(now);
      failures := MISSING;
      log := log + [Opened(now)];
    }

    method Success(now: int)
      modifies this
      ensures View() == OnSuccess(old(View()), config, now)
    {
      if phase == HalfOpen {
        successes := Counter(successes.Live(now) + 1, now + COUNTER_TTL);
        log := log + [HalfOpenSucceeded(now)];
        if successes.count >= config.successThreshold {
          phase := Closed;
          failures, successes, openedAt := MISSING, MISSING, Never;
          log := log + [Reclosed(now)];
        }
      } else if phase == Closed {
        failures := MISSING;
        log := log + [Succeeded(now)];
      }
    }

    method Failure(now: int)
      modifies this
      ensures View() == OnFailure(old(View()), config, now)
    {
      if phase == HalfOpen {
        log := log + [HalfOpenFailed(now)];
        Open(now);
        return;
      }
      failures := Counter(failures.Live(now) + 1, now + COUNTER_TTL);
      log := log + [Failed(now)];
      if failures.count >= config.failureThreshold {
        Open(now);
      }
    }

    /** call(func): `call` says when it starts, when the wrapped function returns, and how. */
    method Invoke(call: Call) returns (reply: Reply)
      modifies this
      ensures (View(), reply) == Attempt(old(View()), config, call)
    {
      if phase == Phase.Open {
        if openedAt.At? && call.start - openedAt.time >= config.cooldown {
          phase := HalfOpen;
        } else {
          return FailedFast;
        }
      }
      if call.succeeds {
        Success(call.end);
        return Returned;
      }
      Failure(call.end);
      return Raised;
    }
  }

  /** The trace leaves nothing out: each call that runs adds how it ended, in which phase, and its transition. */
  lemma AttemptIsLogged(w: World, c: Config, call: Call)
    ensures var (after, reply) := Attempt(w, c, call);
      var closed := w.breaker.phase == Closed;
      var ended := if closed then (if call.succeeds then Succeeded(call.end) else Failed(call.end))
        else if call.succeeds then HalfOpenSucceeded(call.end) else HalfOpenFailed(call.end);
      if reply == FailedFast then after == w
      else
        && (reply == Returned <==> call.succeeds)
        && after.log == w.log + [ended] + (
             if after.breaker.phase == Open then [Opened(call.end)]
             else if after.breaker.phase == Closed && !closed then [Reclosed(call.end)] else [])
        && (if after.breaker.phase == Open then after.breaker.openedAt == At(call.end)
            else if after.breaker.phase == Closed && !closed then after.breaker == Fresh().breaker
            else after.breaker.openedAt == w.breaker.openedAt)
  {
  }

  // ---------------------------------------------------------------- counters against the trace

  /** The current run of closed-state failures: each less than 60 s after the one before, `now` after the last. */
  function FailureRun(log: seq<Entry>, now: int): nat {
    if log == [] then 0
    else
      var last := log[|log| - 1];
      if last.Failed? && now < last.at + 60_000 then FailureRun(log[..|log| - 1], last.at) + 1 else 0
  }

  /** Half-open successes since the last close, with gaps under 60 s; other entries may lie in between. */
  function SuccessRun(log: seq<Entry>, now: int): nat {
    if log == [] then 0
    else
      var front, last := log[..|log| - 1], log[|log| - 1];
      if last.HalfOpenSucceeded? then
        if now < last.at + 60_000 then SuccessRun(front, last.at) + 1 else 0
      else if last.Reclosed? then 0
      else SuccessRun(front, now)
  }

  /** At every later instant, what Redis would return is what the trace says. */
  ghost predicate CountersAgree(w: World, since: int) {
    && (forall now :: since <= now ==> w.breaker.failures.Live(now) == FailureRun(w.log, now))
    && (forall now :: since <= now ==> w.breaker.successes.Live(now) == SuccessRun(w.log, now))
    && (w.breaker.phase != Closed ==> w.breaker.failures == MISSING)
    && (w.breaker.phase != Closed ==> w.breaker.openedAt.At? && w.breaker.openedAt.time <= since)
  }

  lemma RunsOfOneMore(log: seq<Entry>, entry: Entry, now: int)
    ensures FailureRun(log + [entry], now)
      == if entry.Failed? && now < entry.at + 60_000 then FailureRun(log, entry.at) + 1 else 0
    ensures SuccessRun(log + [entry], now)
      == if entry.HalfOpenSucceeded? then (if now < entry.at + 60_000 then SuccessRun(log, entry.at) + 1 else 0)
         else if entry.Reclosed? then 0 else SuccessRun(log, now)
  {
    assert (log + [entry])[..|log|] == log;
  }

  lemma OpeningAgrees(w: World, now: int)
    requires forall t :: now <= t ==> w.breaker.successes.Live(t) == SuccessRun(w.log, t)
    ensures CountersAgree(OpenCircuit(w, now), now)
  {
    forall t | now <= t
      ensures FailureRun(w.log + [Opened(now)], t) == 0
      ensures SuccessRun(w.log + [Opened(now)], t) == SuccessRun(w.log, t)
    {
      RunsOfOneMore(w.log, Opened(now), t);
    }
  }

  lemma SuccessAgrees(w: World, c: Config, since: int, now: int)
    requires CountersAgree(w, since) && since <= now
    ensures CountersAgree(OnSuccess(w, c, now), now)
  {
    var after := OnSuccess(w, c, now);
    var half := w.log + [HalfOpenSucceeded(now)];
    forall t | now <= t
      ensures after.breaker.failures.Live(t) == FailureRun(after.log, t)
      ensures after.breaker.successes.Live(t) == SuccessRun(after.log, t)
    {
      RunsOfOneMore(w.log, HalfOpenSucceeded(now), t);
      RunsOfOneMore(half, Reclosed(now), t);
      RunsOfOneMore(w.log, Succeeded(now), t);
    }
  }

  lemma FailureAgrees(w: World, c: Config, since: int, now: int)
    requires CountersAgree(w, since) && since <= now && w.breaker.phase != Open
    ensures CountersAgree(OnFailure(w, c, now), now)
  {
    var entry := if w.breaker.phase == HalfOpen then HalfOpenFailed(now) else Failed(now);
    forall t | now <= t
      ensures SuccessRun(w.log + [entry], t) == SuccessRun(w.log, t)
      ensures w.breaker.phase == Closed ==>
        w.breaker.failures.Incremented(now).Live(t) == FailureRun(w.log + [entry], t)
    {
      RunsOfOneMore(w.log, entry, t);
    }
    if w.breaker.phase == HalfOpen || w.breaker.failures.Incremented(now).count >= c.failureThreshold {
      OpeningAgrees(World(if w.breaker.phase == HalfOpen then w.breaker
                          else w.breaker.(failures := w.breaker.failures.Incremented(now)), w.log + [entry]), now);
    }
  }

  lemma AttemptAgrees(w: World, c: Config, call: Call, since: int)
    requires CountersAgree(w, since) && since <= call.start <= call.end
    ensures CountersAgree(Attempt(w, c, call).0, call.end)
  {
    var ready := if w.breaker.phase == Open then w.(breaker := w.breaker.(phase := HalfOpen)) else w;
    if !CoolingDown(w.breaker, c, call.start) {
      if call.succeeds {
        SuccessAgrees(ready, c, since, call.end);
      } else {
        FailureAgrees(ready, c, since, call.end);
      }
    }
  }

  /**
   After any run of calls the stored counters read, at every later instant, exactly the
   failure run and the half-open successes of the trace.
   */
  lemma {:induction false} CountersAgreeWithTheTrace(c: Config, calls: seq<Call>, since: int)
    requires Sequential(calls) && 0 <= since && (calls != [] ==> calls[|calls| - 1].end <= since)
    ensures CountersAgree(Run(c, calls), since)
  {
    if calls != [] {
      var n := |calls| - 1;
      CountersAgreeWithTheTrace(c, calls[..n], calls[n].start);
      AttemptAgrees(Run(c, calls[..n]), c, calls[n], calls[n].start);
    }
  }

  /** A failing call opens a closed circuit exactly when the failure run it ends reaches the threshold. */
  lemma OpensExactlyAtTheThreshold(c: Config, calls: seq<Call>, call: Call)
    requires Sequential(calls + [call]) && !call.succeeds && Run(c, calls).breaker.phase == Closed
    ensures Attempt(Run(c, calls), c, call).1 == Raised
    ensures Attempt(Run(c, calls), c, call).0.breaker.phase == Open
      <==> FailureRun(Run(c, calls).log + [Failed(call.end)], call.end) >= c.failureThreshold
  {
    hide Run, FailureRun, SuccessRun, Sequential;
    LastCall(calls, call);
    CountersAgreeWithTheTrace(c, calls, call.start);
    RunsOfOneMore(Run(c, calls).log, Failed(call.end), call.end);
  }

  /**
   A successful attempt on an open or half-open circuit closes it exactly when it completes
   `successThreshold` half-open successes since the last close; they need not be consecutive.
   */
  lemma ClosesExactlyAtTheThreshold(c: Config, calls: seq<Call>, call: Call)
    requires Sequential(calls + [call]) && call.succeeds && Run(c, calls).breaker.phase != Closed
    requires !CoolingDown(Run(c, calls).breaker, c, call.start)
    ensures Attempt(Run(c, calls), c, call).0.breaker.phase == Closed
      <==> SuccessRun(Run(c, calls).log + [HalfOpenSucceeded(call.end)], call.end) >= c.successThreshold
  {
    hide Run, FailureRun, SuccessRun, Sequential;
    LastCall(calls, call);
    CountersAgreeWithTheTrace(c, calls, call.start);
    RunsOfOneMore(Run(c, calls).log, HalfOpenSucceeded(call.end), call.end);
  }

  /** `n` calls at time zero, all failing. */
  function Failures(n: nat): (calls: seq<Call>)
    ensures |calls| == n
    ensures forall i :: 0 <= i < n ==> calls[i] == Call(0, 0, false)
  {
    if n == 0 then [] else Failures(n - 1) + [Call(0, 0, false)]
  }

  /** Below the threshold failures are only counted; the next one opens the circuit. */
  lemma {:induction false} FailuresCount(c: Config, n: nat)
    requires n == 0 || n < c.failureThreshold
    ensures var b := Run(c, Failures(n)).breaker;
      && b.phase == Closed && b.failures.Live(0) == n && b.successes == MISSING
    ensures n + 1 >= c.failureThreshold ==> Run(c, Failures(n + 1)).breaker == Breaker(Open, MISSING, MISSING, At(0))
  {
    assert Failures(n + 1)[..n] == Failures(n);
    if n > 0 {
      FailuresCount(c, n - 1);
      assert Failures(n)[..n - 1] == Failures(n - 1);
    }
  }

  /** As many failures as open the circuit: the threshold, and one if that is not positive. */
  function Opening(c: Config): nat {
    if c.failureThreshold <= 1 then 1 else c.failureThreshold
  }

  /** One half-open success, a half-open failure that reopens the circuit, and after its cooldown one more success. */
  function SuccessFailureSuccess(c: Config): seq<Call> {
    var d := c.cooldown;
    [Call(d, d, true), Call(d, d, false), Call(2 * d, 2 * d, true)]
  }

  lemma OneMoreCall(c: Config, calls: seq<Call>, call: Call)
    ensures Run(c, calls + [call]) == Attempt(Run(c, calls), c, call).0
  {
    assert (calls + [call])[..|calls|] == calls;
  }

  /**
   A half-open circuit runs more than one call, and two successes close it although a failure reopened it
   in between: so it is for every failure threshold and every cooldown under a minute.
   */
  lemma SuccessesSurviveReopening(c: Config)
    requires c.successThreshold == 2 && c.cooldown < 60_000
    ensures var failures, more := Failures(Opening(c)), SuccessFailureSuccess(c);
      && Sequential(failures + more)
      && Run(c, failures + more[..1]).breaker.phase == HalfOpen
      && Attempt(Run(c, failures + more[..1]), c, more[1]).1 == Raised
      && Run(c, failures + more[..2]).breaker.phase == Open
      && Run(c, failures + more).breaker.phase == Closed
  {
    var failures, more := Failures(Opening(c)), SuccessFailureSuccess(c);
    var d := c.cooldown;
    FailuresCount(c, Opening(c) - 1);
    hide Run, Failures;
    assert failures + more[..1] == failures + [more[0]];
    OneMoreCall(c, failures, more[0]);
    assert Run(c, failures + more[..1]).breaker == Breaker(HalfOpen, MISSING, Counter(1, d + COUNTER_TTL), At(0));
    assert failures + more[..2] == failures + more[..1] + [more[1]];
    OneMoreCall(c, failures + more[..1], more[1]);
    assert Run(c, failures + more[..2]).breaker == Breaker(Open, MISSING, Counter(1, d + COUNTER_TTL), At(d));
    assert failures + more == failures + more[..2] + [more[2]];
    OneMoreCall(c, failures + more[..2], more[2]);
  }

  lemma LastCall(calls: seq<Call>, call: Call)
    requires Sequential(calls + [call])
    ensures Sequential(calls) && 0 <= call.start <= call.end
    ensures calls != [] ==> calls[|calls| - 1].end <= call.start
  {
    var all := calls + [call];
    assert all[|calls|] == call;
    assert forall i :: 0 <= i < |calls| ==> all[i] == calls[i];
  }

  // ---------------------------------------------------------------- attempt spacing

  /** Nothing is attempted on an open circuit before its cooldown ends, and nothing changes meanwhile. */
  lemma NoAttemptBeforeCooldown(w: World, c: Config, call: Call)
    requires w.breaker.phase == Open && w.breaker.openedAt.At?
    ensures Attempt(w, c, call).1 != FailedFast <==> call.start >= w.breaker.openedAt.time + c.cooldown
    ensures Attempt(w, c, call).1 == FailedFast ==> Attempt(w, c, call).0 == w
  {
  }

  /** The calls among `calls` whose function is really run. */
  function Attempts(w: World, c: Config, calls: seq<Call>): seq<Call> {
    if calls == [] then []
    else
      var n := |calls| - 1;
      var before := Attempts(w, c, calls[..n]);
      if Attempt(RunFrom(w, c, calls[..n]), c, calls[n]).1 == FailedFast then before else before + [calls[n]]
  }

  /** A failing call on an open circuit fails fast, or is attempted after the cooldown and reopens it. */
  lemma FailingCall(w: World, c: Config, call: Call)
    requires w.breaker.phase == Open && w.breaker.openedAt.At? && call.start <= call.end && !call.succeeds
    ensures var (after, reply) := Attempt(w, c, call);
      if reply == FailedFast then after == w
      else
        && after.breaker.phase == Open && after.breaker.openedAt == At(call.end)
        && call.start >= w.breaker.openedAt.time + c.cooldown
  {
  }

  lemma OneMoreCooldown(k: nat, cooldown: int)
    ensures (k + 1) * cooldown == k * cooldown + cooldown
  {
  }

  lemma {:induction false} ReopensLater(w: World, c: Config, calls: seq<Call>)
    requires w.breaker.phase == Open && w.breaker.openedAt.At?
    requires forall i :: 0 <= i < |calls| ==> calls[i].start <= calls[i].end && !calls[i].succeeds
    ensures var after := RunFrom(w, c, calls).breaker;
      && after.phase == Open && after.openedAt.At?
      && after.openedAt.time >= w.breaker.openedAt.time + |Attempts(w, c, calls)| * c.cooldown
    ensures var attempts := Attempts(w, c, calls);
      forall k :: 0 <= k < |attempts| ==>
        attempts[k].start >= w.breaker.openedAt.time + (k + 1) * c.cooldown
  {
    hide Attempt;
    if calls != [] {
      var n := |calls| - 1;
      ReopensLater(w, c, calls[..n]);
      OneMoreCooldown(|Attempts(w, c, calls[..n])|, c.cooldown);
      FailingCall(RunFrom(w, c, calls[..n]), c, calls[n]);
    }
  }

  /**
   Against a dependency that keeps failing, the k-th attempt after an opening starts at least
   k cooldowns after it.
   */
  lemma AttemptsAreSpaced(w: World, c: Config, calls: seq<Call>, k: nat)
    requires w.breaker.phase == Open && w.breaker.openedAt.At?
    requires forall i :: 0 <= i < |calls| ==> calls[i].start <= calls[i].end && !calls[i].succeeds
    requires 1 <= k <= |Attempts(w, c, calls)|
    ensures Attempts(w, c, calls)[k - 1].start - w.breaker.openedAt.time >= k * c.cooldown
  {
    ReopensLater(w, c, calls);
  }
}
