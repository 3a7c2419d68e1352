/**
 Staggered admission of pre-registered users of one sale. Rows are listed by
 registered_at; with several workers no two users register at the same instant.
 */
module Admission {

  const TOKEN_TTL := 60

  datatype Registration = Registration(user: nat, registeredAt: int, admitted: bool)

  /** ORDER BY registered_at; users register once. */
  predicate Listed(rows: seq<Registration>) {
    && (forall i, j :: 0 <= i < j < |rows| ==> rows[i].registeredAt <= rows[j].registeredAt)
    && (forall i, j :: 0 <= i < j < |rows| ==> rows[i].user != rows[j].user)
  }

  /** No two users registered at the same instant. */
  predicate ByRegistration(rows: seq<Registration>) {
    && (forall i, j :: 0 <= i < j < |rows| ==> rows[i].registeredAt < rows[j].registeredAt)
    && (forall i, j :: 0 <= i < j < |rows| ==> rows[i].user != rows[j].user)
  }

  /** SELECT ... WHERE status = 'waiting' ORDER BY registered_at LIMIT `limit`, from row `start` on. */
  function Fetch(rows: seq<Registration>, start: nat, limit: nat): (batch: seq<nat>)
    requires start <= |rows|
    ensures |batch| <= limit
    ensures forall k :: 0 <= k < |batch| ==> start <= batch[k] < |rows| && !rows[batch[k]].admitted
    decreases |rows| - start
  {
    if start == |rows| || limit == 0 then []
    else if rows[start].admitted then Fetch(rows, start + 1, limit)
    else [start] + Fetch(rows, start + 1, limit - 1)
  }

  predicate Ascending(list: seq<nat>) {
    forall j, k :: 0 <= j < k < |list| ==> list[j] < list[k]
  }

  /** Whoever waits before somebody on the list is on it too; rows before `start` aside. */
  predicate Earliest(rows: seq<Registration>, start: nat, list: seq<nat>) {
    forall i, x :: start <= i < |rows| && x in list && i < x ==> rows[i].admitted || i in list
  }

  lemma {:induction false} FetchAscends(rows: seq<Registration>, start: nat, limit: nat)
    requires start <= |rows|
    ensures Ascending(Fetch(rows, start, limit))
    decreases |rows| - start
  {
    if start < |rows| && limit > 0 {
      FetchAscends(rows, start + 1, if rows[start].admitted then limit else limit - 1);
    }
  }

  /** The batch is made of the earliest waiting rows, and of all of them if it is not full. */
  lemma {:induction false} FetchTakesTheEarliest(rows: seq<Registration>, start: nat, limit: nat)
    requires start <= |rows|
    ensures Earliest(rows, start, Fetch(rows, start, limit))
    ensures |Fetch(rows, start, limit)| < limit ==>
      forall i :: start <= i < |rows| ==> rows[i].admitted || i in Fetch(rows, start, limit)
    decreases |rows| - start
  {
    if start < |rows| && limit > 0 {
      if rows[start].admitted {
        FetchTakesTheEarliest(rows, start + 1, limit);
      } else {
        var rest := Fetch(rows, start + 1, limit - 1);
        FetchTakesTheEarliest(rows, start + 1, limit - 1);
        assert Fetch(rows, start, limit) == [start] + rest;
        assert forall x :: x in [start] + rest <==> x == start || x in rest;
      }
    }
  }

  function Admit(rows: seq<Registration>, i: nat): seq<Registration>
    requires i < |rows|
  {
    rows[i := rows[i].(admitted := true)]
  }

  /** The rows once the listed ones are marked admitted. */
  function AdmitAll(rows: seq<Registration>, batch: seq<nat>): seq<Registration> {
    seq(|rows|, i requires 0 <= i < |rows| => if i in batch then rows[i].(admitted := true) else rows[i])
  }

  /** If a user is admitted, every earlier registrant is. */
  predicate PrefixClosed(rows: seq<Registration>) {
    forall i, j :: 0 <= i < j < |rows| && rows[j].admitted ==> rows[i].admitted
  }

  // ---------------------------------------------------------------- one worker

  class AdmissionWorker {
    var rows: seq<Registration>
    /** admission:{sale}:{user}, with the second the token expires. */
    var tokens: map<nat, int>

    constructor ()
      ensures rows == [] && tokens == map[]
    {
      rows, tokens := [], map[];
    }

    /** create_preregistration: refused for a user already registered. */
    method Register(user: nat, now: int) returns (ok: bool)
      requires Listed(rows)
      requires forall i :: 0 <= i < |rows| ==> rows[i].registeredAt <= now
      modifies this`rows
      ensures Listed(rows)
      ensures ok == !exists i :: 0 <= i < |old(rows)| && old(rows)[i].user == user
      ensures rows == if ok then old(rows) + [Registration(user, now, false)] else old(rows)
    {
      if exists i :: 0 <= i < |rows| && rows[i].user == user {
        return false;
      }
      rows := rows + [Registration(user, now, false)];
      return true;
    }

    /** admit_batch: a token, then a mark, for each of the next waiting users. */
    method AdmitBatch(limit: nat, now: int) returns (count: nat)
      modifies this
      ensures rows == AdmitAll(old(rows), Fetch(old(rows), 0, limit))
      ensures tokens == WithTokens(old(tokens), old(rows), Fetch(old(rows), 0, limit), now)
      ensures count == |Fetch(old(rows), 0, limit)|
    {
      var waiting := rows;
      var batch := Fetch(waiting, 0, limit);
      assert AdmitAll(waiting, batch[..0]) == waiting;
      ghost var before := tokens;
      count := 0;
      hide Fetch, AdmitAll, WithTokens;
      for k := 0 to |batch|
        invariant count == k
        invariant |rows| == |waiting| && rows == AdmitAll(waiting, batch[..k])
        invariant tokens == WithTokens(before, waiting, batch[..k], now)
      {
        OneMoreAdmitted(waiting, before, batch, k, now);
        tokens := tokens[waiting[batch[k]].user := now + TOKEN_TTL];
        rows := rows[batch[k] := rows[batch[k]].(admitted := true)];
        count := count + 1;
      }
      assert batch[..|batch|] == batch;
    }
  }

  function WithTokens(tokens: map<nat, int>, rows: seq<Registration>, batch: seq<nat>, now: int): map<nat, int>
    requires forall k :: 0 <= k < |batch| ==> batch[k] < |rows|
  {
    if batch == [] then tokens
    else WithTokens(tokens, rows, batch[..|batch| - 1], now)[rows[batch[|batch| - 1]].user := now + TOKEN_TTL]
  }

  lemma OneMoreAdmitted(rows: seq<Registration>, tokens: map<nat, int>, batch: seq<nat>, k: nat, now: int)
    requires k < |batch| && forall j :: 0 <= j < |batch| ==> batch[j] < |rows|
    ensures var before := AdmitAll(rows, batch[..k]); var i := batch[k];
      |before| == |rows| && AdmitAll(rows, batch[..k + 1]) == before[i := before[i].(admitted := true)]
    ensures WithTokens(tokens, rows, batch[..k + 1], now)
      == WithTokens(tokens, rows, batch[..k], now)[rows[batch[k]].user := now + TOKEN_TTL]
  {
    assert batch[..k + 1] == batch[..k] + [batch[k]];
    assert batch[..k + 1][..k] == batch[..k];
  }

  /** Exactly the users a batch admits get a token for the next sixty seconds. */
  lemma {:induction false} TokensGoToTheAdmitted(
      tokens: map<nat, int>, rows: seq<Registration>, batch: seq<nat>, now: int, user: nat)
    requires forall k :: 0 <= k < |batch| ==> batch[k] < |rows|
    ensures var after := WithTokens(tokens, rows, batch, now);
      if exists k :: 0 <= k < |batch| && rows[batch[k]].user == user then
        user in after && after[user] == now + 60
      else user in after <==> user in tokens
    ensures var after := WithTokens(tokens, rows, batch, now);
      user in after && user in tokens && (forall k :: 0 <= k < |batch| ==> rows[batch[k]].user != user) ==>
        after[user] == tokens[user]
  {
    if batch != [] {
      var n := |batch| - 1;
      TokensGoToTheAdmitted(tokens, rows, batch[..n], now, user);
      if k :| 0 <= k < n && rows[batch[k]].user == user {
        assert rows[batch[..n][k]].user == user;
      }
    }
  }

  /** A batch admits the earliest waiting users: nobody it leaves behind registered before anyone it takes. */
  lemma BatchKeepsPrefixClosed(rows: seq<Registration>, limit: nat)
    requires PrefixClosed(rows)
    ensures PrefixClosed(AdmitAll(rows, Fetch(rows, 0, limit)))
    ensures |Fetch(rows, 0, limit)| < limit ==>
      forall i :: 0 <= i < |rows| ==> AdmitAll(rows, Fetch(rows, 0, limit))[i].admitted
  {
    FetchTakesTheEarliest(rows, 0, limit);
  }

  // ---------------------------------------------------------------- many workers

  /** `todo` is what each worker has fetched and not yet marked. */
  datatype Office = Office(rows: seq<Registration>, todo: seq<seq<nat>>)

  datatype Step =
    | Registers(user: nat, now: int)
    | Starts
    | Fetches(worker: nat, limit: nat)
    | Marks(worker: nat)
    | Crashes(worker: nat)

  function Next(o: Office, step: Step): Office {
    match step
    case Registers(user, now) =>
      if (forall i :: 0 <= i < |o.rows| ==> o.rows[i].registeredAt < now && o.rows[i].user != user) then
        o.(rows := o.rows + [Registration(user, now, false)])
      else o
    case Starts => o.(todo := o.todo + [[]])
    case Fetches(w, limit) =>
      if w < |o.todo| && o.todo[w] == [] then o.(todo := o.todo[w := Fetch(o.rows, 0, limit)]) else o
    case Marks(w) =>
      if w < |o.todo| && o.todo[w] != [] && o.todo[w][0] < |o.rows| then
        Office(Admit(o.rows, o.todo[w][0]), o.todo[w := o.todo[w][1..]])
      else o
    case Crashes(w) => if w < |o.todo| then o.(todo := o.todo[w := []]) else o
  }

  function Run(steps: seq<Step>): Office {
    if steps == [] then Office([], []) else Next(Run(steps[..|steps| - 1]), steps[|steps| - 1])
  }

  /** Everyone before a row some worker still has to mark is admitted, or is on that worker's list. */
  ghost predicate InTurn(rows: seq<Registration>, list: seq<nat>) {
    && Ascending(list)
    && (forall x :: x in list ==> x < |rows|)
    && Earliest(rows, 0, list)
  }

  ghost predicate Fair(o: Office) {
    && ByRegistration(o.rows)
    && PrefixClosed(o.rows)
    && forall w :: 0 <= w < |o.todo| ==> InTurn(o.rows, o.todo[w])
  }

  lemma MarkedIsInTurn(rows: seq<Registration>, list: seq<nat>, i: nat)
    requires InTurn(rows, list) && i < |rows|
    ensures InTurn(Admit(rows, i), list)
  {
  }

  lemma RestIsInTurn(rows: seq<Registration>, list: seq<nat>)
    requires InTurn(rows, list) && list != [] && list[0] < |rows|
    ensures InTurn(Admit(rows, list[0]), list[1..])
  {
    assert forall x :: x in list <==> x == list[0] || x in list[1..];
  }

  lemma GrownIsInTurn(rows: seq<Registration>, list: seq<nat>, more: Registration)
    requires InTurn(rows, list)
    ensures InTurn(rows + [more], list)
  {
  }

  lemma FetchedIsInTurn(rows: seq<Registration>, limit: nat)
    ensures InTurn(rows, Fetch(rows, 0, limit))
  {
    FetchAscends(rows, 0, limit);
    FetchTakesTheEarliest(rows, 0, limit);
  }

  lemma FirstInTurn(rows: seq<Registration>, list: seq<nat>)
    requires InTurn(rows, list) && list != []
    ensures list[0] < |rows| && forall i :: 0 <= i < list[0] ==> rows[i].admitted
  {
    assert list[0] in list;
  }

  lemma StepIsFair(o: Office, step: Step)
    requires Fair(o)
    ensures Fair(Next(o, step))
  {
    match step
    case Registers(user, now) =>
      var more := Registration(user, now, false);
      forall w | 0 <= w < |o.todo| ensures InTurn(o.rows + [more], o.todo[w]) {
        GrownIsInTurn(o.rows, o.todo[w], more);
      }
    case Starts =>
    case Fetches(w, limit) => FetchedIsInTurn(o.rows, limit);
    case Marks(w) =>
      if w < |o.todo| && o.todo[w] != [] {
        var i := o.todo[w][0];
        FirstInTurn(o.rows, o.todo[w]);
        RestIsInTurn(o.rows, o.todo[w]);
        forall v | 0 <= v < |o.todo| ensures InTurn(Admit(o.rows, i), o.todo[v]) {
          MarkedIsInTurn(o.rows, o.todo[v], i);
        }
      }
    case Crashes(w) =>
  }

  /**
   Admission is prefix-closed: with any number of workers interleaved row by row, late
   registrations and crashes, an admitted user's earlier registrants are all admitted.
   */
  lemma {:induction false} AdmissionIsPrefixClosed(steps: seq<Step>)
    ensures Fair(Run(steps))
    ensures var rows := Run(steps).rows;
      forall i, j | 0 <= i < |rows| && 0 <= j < |rows| && rows[i].registeredAt < rows[j].registeredAt ::
        rows[j].admitted ==> rows[i].admitted
  {
    if steps != [] {
      AdmissionIsPrefixClosed(steps[..|steps| - 1]);
      StepIsFair(Run(steps[..|steps| - 1]), steps[|steps| - 1]);
    }
  }

  function MarksOf(o: Office, w: nat, n: nat): Office {
    if n == 0 then o else Next(MarksOf(o, w, n - 1), Marks(w))
  }

  lemma OneMoreMark(rows: seq<Registration>, list: seq<nat>, n: nat)
    requires 0 < n <= |list| && forall x :: x in list ==> x < |rows|
    ensures |AdmitAll(rows, list[..n - 1])| == |rows| && list[n - 1] < |rows|
    ensures Admit(AdmitAll(rows, list[..n - 1]), list[n - 1]) == AdmitAll(rows, list[..n])
    ensures list[n - 1..] != [] && list[n - 1..][0] == list[n - 1] && list[n - 1..][1..] == list[n..]
  {
    assert list[n - 1] in list;
    assert list[..n] == list[..n - 1] + [list[n - 1]];
  }

  lemma {:induction false} MarkingAdmits(o: Office, w: nat, n: nat)
    requires w < |o.todo| && n <= |o.todo[w]| && forall x :: x in o.todo[w] ==> x < |o.rows|
    ensures MarksOf(o, w, n) == Office(AdmitAll(o.rows, o.todo[w][..n]), o.todo[w := o.todo[w][n..]])
  {
    if n == 0 {
      assert AdmitAll(o.rows, []) == o.rows && o.todo[w][0..] == o.todo[w];
    } else {
      MarkingAdmits(o, w, n - 1);
      OneMoreMark(o.rows, o.todo[w], n);
      hide AdmitAll, Admit;
    }
  }

  /** A worker that is not interrupted admits the users a whole batch admits, and is ready for the next. */
  lemma UninterruptedWorkerIsABatch(o: Office, w: nat, limit: nat)
    requires w < |o.todo| && o.todo[w] == []
    ensures var batch := Fetch(o.rows, 0, limit);
      MarksOf(Next(o, Fetches(w, limit)), w, |batch|) == Office(AdmitAll(o.rows, batch), o.todo)
  {
    var batch := Fetch(o.rows, 0, limit);
    assert batch[..|batch|] == batch && batch[|batch|..] == [];
    MarkingAdmits(Next(o, Fetches(w, limit)), w, |batch|);
    assert o.todo[w := batch][w := []] == o.todo;
  }

  function Admitted(rows: seq<Registration>): nat {
    if rows == [] then 0 else Admitted(rows[..|rows| - 1]) + if rows[|rows| - 1].admitted then 1 else 0
  }

  /** In a prefix-closed table the admitted rows are the first ones. */
  lemma {:induction false} AdmittedComeFirst(rows: seq<Registration>)
    requires PrefixClosed(rows)
    ensures Admitted(rows) <= |rows|
    ensures forall i :: 0 <= i < |rows| ==> (rows[i].admitted <==> i < Admitted(rows))
  {
    if rows != [] {
      AdmittedComeFirst(rows[..|rows| - 1]);
      assert forall i :: 0 <= i < |rows| - 1 ==> rows[..|rows| - 1][i] == rows[i];
    }
  }

  /** The table before anybody was admitted. */
  function Unadmitted(rows: seq<Registration>): seq<Registration> {
    seq(|rows|, i requires 0 <= i < |rows| => rows[i].(admitted := false))
  }

  lemma OneStepMore(steps: seq<Step>, step: Step)
    ensures Run(steps + [step]) == Next(Run(steps), step)
  {
    assert (steps + [step])[..|steps|] == steps;
  }

  lemma {:induction false} Registering(rows: seq<Registration>) returns (steps: seq<Step>)
    requires ByRegistration(rows)
    ensures Run(steps) == Office(Unadmitted(rows), [])
  {
    steps := [];
    if rows != [] {
      var n := |rows| - 1;
      var before := Registering(rows[..n]);
      steps := before + [Registers(rows[n].user, rows[n].registeredAt)];
      OneStepMore(before, Registers(rows[n].user, rows[n].registeredAt));
      assert Unadmitted(rows) == Unadmitted(rows[..n]) + [Registration(rows[n].user, rows[n].registeredAt, false)];
    }
  }

  lemma {:induction false} FirstRowsAreFetched(rows: seq<Registration>, start: nat, limit: nat)
    requires start + limit <= |rows| && forall i :: 0 <= i < |rows| ==> !rows[i].admitted
    ensures var batch := Fetch(rows, start, limit);
      |batch| == limit && forall k :: 0 <= k < limit ==> batch[k] == start + k
    decreases limit
  {
    if limit > 0 {
      FirstRowsAreFetched(rows, start + 1, limit - 1);
    }
  }

  lemma {:induction false} Marking(steps: seq<Step>, w: nat, n: nat) returns (more: seq<Step>)
    ensures Run(more) == MarksOf(Run(steps), w, n)
  {
    more := steps;
    if n > 0 {
      var before := Marking(steps, w, n - 1);
      more := before + [Marks(w)];
      OneStepMore(before, Marks(w));
    }
  }

  lemma AdmittingTheFirst(rows: seq<Registration>)
    requires PrefixClosed(rows)
    ensures var batch := Fetch(Unadmitted(rows), 0, Admitted(rows));
      |batch| == Admitted(rows) && AdmitAll(Unadmitted(rows), batch) == rows
  {
    var n, waiting := Admitted(rows), Unadmitted(rows);
    AdmittedComeFirst(rows);
    FirstRowsAreFetched(waiting, 0, n);
    var batch := Fetch(waiting, 0, n);
    hide Fetch, Admitted;
    forall i | 0 <= i < |rows| ensures AdmitAll(waiting, batch)[i] == rows[i] {
      assert i < n ==> batch[i] == i;
    }
  }

  lemma OneWorker(office: Office)
    requires office.todo == []
    ensures Next(office, Starts) == office.(todo := [[]])
  {
  }

  /** Prefix closure is all there is: some run reaches every prefix-closed table. */
  lemma PrefixClosedIsReachable(rows: seq<Registration>) returns (steps: seq<Step>)
    requires ByRegistration(rows) && PrefixClosed(rows)
    ensures Run(steps).rows == rows
  {
    hide *;
    var n, waiting := Admitted(rows), Unadmitted(rows);
    AdmittingTheFirst(rows);
    var registered := Registering(rows);
    OneStepMore(registered, Starts);
    OneWorker(Office(waiting, []));
    OneStepMore(registered + [Starts], Fetches(0, n));
    steps := Marking(registered + [Starts] + [Fetches(0, n)], 0, n);
    UninterruptedWorkerIsABatch(Office(waiting, [[]]), 0, n);
  }
}
