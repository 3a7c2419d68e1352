/** The outbox worker: bounded retries, at-least-once publication, and a backlog that drains. */
module Outbox {
  import opened Sums
  import Tables

  const MAX_RETRY_COUNT := 10

  /** A row of the outbox table. */
  type Event = Tables.Event

  /** What the broker and the bookkeeping after it make of one publication. */
  datatype Reply = Accepted | AcceptedButNotMarked | Rejected

  /** The table in created_at order, and the reservations whose events the broker has ever accepted. */
  datatype Box = Box(events: seq<Event>, accepted: set<nat>)

  predicate InOrder(events: seq<Event>) {
    forall i, j :: 0 <= i < j < |events| ==> events[i].createdAt <= events[j].createdAt
  }

  function InsertInOrder(events: seq<Event>, e: Event): (out: seq<Event>)
    requires InOrder(events)
    ensures InOrder(out) && |out| == |events| + 1
    ensures forall x :: x in out <==> x in events || x == e
  {
    var n := |events| - 1;
    if events == [] || events[n].createdAt <= e.createdAt then events + [e]
    else
      assert events == events[..n] + [events[n]];
      var front := InsertInOrder(events[..n], e);
      assert forall x :: x in events[..n] ==> x.createdAt <= events[n].createdAt;
      assert forall i :: 0 <= i < |front| ==> front[i] in front;
      front + [events[n]]
  }

  predicate Ascending(batch: seq<nat>) {
    forall i, j :: 0 <= i < j < |batch| ==> batch[i] < batch[j]
  }

  function CountUnpublished(events: seq<Event>, start: nat): nat
    requires start <= |events|
    decreases |events| - start
  {
    if start == |events| then 0
    else CountUnpublished(events, start + 1) + if events[start].published then 0 else 1
  }

  /** The rows of SELECT ... WHERE published = FALSE ORDER BY created_at LIMIT `limit`, from row `start` on. */
  function Pending(events: seq<Event>, start: nat, limit: nat): (batch: seq<nat>)
    requires start <= |events|
    ensures Ascending(batch)
    ensures forall i :: 0 <= i < |batch| ==> start <= batch[i] < |events| && !events[batch[i]].published
    ensures |batch| == if CountUnpublished(events, start) < limit then CountUnpublished(events, start) else limit
    ensures forall x :: start <= x < |events| && !events[x].published && x !in batch ==>
      forall i :: 0 <= i < |batch| ==> batch[i] < x
    decreases |events| - start
  {
    if start == |events| || limit == 0 then []
    else if events[start].published then Pending(events, start + 1, limit)
    else [start] + Pending(events, start + 1, limit - 1)
  }

  // ---------------------------------------------------------------- one poll

  function Handled(e: Event, reply: Reply): Event {
    if e.retries >= MAX_RETRY_COUNT || reply == Accepted then e.(published := true)
    else e.(retries := e.retries + 1)
  }

  /** The broker accepted the message. */
  predicate Sent(e: Event, reply: Reply) {
    e.retries < MAX_RETRY_COUNT && reply != Rejected
  }

  function Handle(b: Box, i: nat, reply: Reply): Box
    requires i < |b.events|
  {
    var e := b.events[i];
    Box(b.events[i := Handled(e, reply)],
        if Sent(e, reply) then b.accepted + {e.reservation} else b.accepted)
  }

  /** `replies(k)` is what happens to the k-th event of the batch. */
  function HandleAll(b: Box, batch: seq<nat>, replies: nat -> Reply): (after: Box)
    requires forall i :: 0 <= i < |batch| ==> batch[i] < |b.events|
    ensures |after.events| == |b.events|
  {
    if batch == [] then b
    else
      var n := |batch| - 1;
      Handle(HandleAll(b, batch[..n], replies), batch[n], replies(n))
  }

  function Poll(b: Box, limit: nat, replies: nat -> Reply): (after: Box)
    ensures |after.events| == |b.events|
  {
    HandleAll(b, Pending(b.events, 0, limit), replies)
  }

  /** The events of a batch that are published because the broker accepted them. */
  function CountAccepted(events: seq<Event>, batch: seq<nat>, replies: nat -> Reply): nat
    requires forall i :: 0 <= i < |batch| ==> batch[i] < |events|
  {
    if batch == [] then 0
    else
      var n := |batch| - 1;
      CountAccepted(events, batch[..n], replies)
        + if events[batch[n]].retries < MAX_RETRY_COUNT && replies(n) == Accepted then 1 else 0
  }

  class OutboxWorker {
    var events: seq<Event>
    var accepted: set<nat>

    constructor ()
      ensures View() == Box([], {})
    {
      events, accepted := [], {};
    }

    ghost function View(): Box
      reads this
    {
      Box(events, accepted)
    }

    /** create_outbox_event */
    method CreateOutboxEvent(reservation: nat, createdAt: int)
      requires InOrder(events)
      modifies this`events
      ensures InOrder(events) && |events| == |old(events)| + 1
      ensures forall e :: e in events <==> e in old(events) || e == Tables.Event(reservation, createdAt, false, 0)
    {
      events := InsertInOrder(events, Tables.Event(reservation, createdAt, false, 0));
    }

    /** The body of the loop, for the row fetched as `event`. */
    method PublishOne(i: nat, event: Event, reply: Reply) returns (ok: bool)
      requires i < |events| && events[i] == event
      modifies this
      ensures View() == Handle(old(View()), i, reply)
      ensures |events| == |old(events)| && forall j :: 0 <= j < |events| && j != i ==> events[j] == old(events)[j]
      ensures event.retries < 10 && reply != Accepted ==> events[i] == event.(retries := event.retries + 1)
      ensures event.retries >= 10 || reply == Accepted ==> events[i] == event.(published := true)
      ensures accepted == old(accepted) + if event.retries < 10 && reply != Rejected then {event.reservation} else {}
      ensures ok == (event.retries < MAX_RETRY_COUNT && reply == Accepted)
    {
      if event.retries >= MAX_RETRY_COUNT {
        events := events[i := event.(published := true)];
        return false;
      }
      if reply == Rejected {
        events := events[i := event.(retries := event.retries + 1)];
        return false;
      }
      accepted := accepted + {event.reservation};
      if reply == AcceptedButNotMarked {
        events := events[i := event.(retries := event.retries + 1)];
        return false;
      }
      events := events[i := event.(published := true)];
      return true;
    }

    /** process_outbox_batch: returns the number of events published by this poll. */
    method ProcessOutboxBatch(limit: nat, replies: nat -> Reply) returns (published: nat)
      modifies this
      ensures View() == Poll(old(View()), limit, replies)
      ensures |events| == |old(events)|
      ensures published == |set i | 0 <= i < |events| && !old(events)[i].published && events[i].published
        && old(events)[i].retries < 10|
    {
      var fetched := events;
      var batch := Pending(fetched, 0, limit);
      ghost var before := View();
      published := 0;
      assert HandleAll(before, batch[..0], replies) == before && CountAccepted(fetched, batch[..0], replies) == 0;
      hide Pending, Handle, HandleAll, CountAccepted;
      for k := 0 to |batch|
        invariant View() == HandleAll(before, batch[..k], replies)
        invariant published == CountAccepted(fetched, batch[..k], replies)
      {
        OneMoreHandled(before, batch, replies, k);
        var ok := PublishOne(batch[k], fetched[batch[k]], replies(k));
        if ok {
          published := published + 1;
        }
      }
      assert batch[..|batch|] == batch;
      BatchPublishes(before, batch, replies);
      assert Newly(before.events, events) == set i | 0 <= i < |events| && !before.events[i].published
        && events[i].published && before.events[i].retries < 10;
    }
  }

  /** The events published meanwhile that had retries left. */
  function Newly(was: seq<Event>, now: seq<Event>): set<nat>
    requires |now| == |was|
  {
    set i | 0 <= i < |now| && !was[i].published && now[i].published && was[i].retries < 10
  }

  lemma NewlyOneMore(was: seq<Event>, now: seq<Event>, i: nat, e: Event)
    requires |now| == |was| && i < |was| && !was[i].published && now[i] == was[i]
    ensures |Newly(was, now[i := e])| == |Newly(was, now)| + if e.published && was[i].retries < 10 then 1 else 0
  {
    assert Newly(was, now[i := e]) == Newly(was, now) + if e.published && was[i].retries < 10 then {i} else {};
  }

  /** An event with fewer than ten retries is published by a batch exactly when it is accepted and recorded. */
  lemma {:induction false} BatchPublishes(b: Box, batch: seq<nat>, replies: nat -> Reply)
    requires Ascending(batch)
    requires forall k :: 0 <= k < |batch| ==> batch[k] < |b.events| && !b.events[batch[k]].published
    ensures CountAccepted(b.events, batch, replies) == |Newly(b.events, HandleAll(b, batch, replies).events)|
  {
    if batch == [] {
      assert Newly(b.events, b.events) == {};
    } else {
      var n := |batch| - 1;
      var front := HandleAll(b, batch[..n], replies).events;
      BatchPublishes(b, batch[..n], replies);
      UntouchedUntilReached(b, batch[..n], replies, batch[n]);
      NewlyOneMore(b.events, front, batch[n], Handled(front[batch[n]], replies(n)));
      hide Newly;
    }
  }

  lemma OneMoreHandled(b: Box, batch: seq<nat>, replies: nat -> Reply, k: nat)
    requires k < |batch| && Ascending(batch) && forall i :: 0 <= i < |batch| ==> batch[i] < |b.events|
    ensures var before := HandleAll(b, batch[..k], replies);
      && before.events[batch[k]] == b.events[batch[k]]
      && HandleAll(b, batch[..k + 1], replies) == Handle(before, batch[k], replies(k))
    ensures CountAccepted(b.events, batch[..k + 1], replies) == CountAccepted(b.events, batch[..k], replies)
      + if b.events[batch[k]].retries < MAX_RETRY_COUNT && replies(k) == Accepted then 1 else 0
  {
    assert batch[..k + 1][..k] == batch[..k];
    UntouchedUntilReached(b, batch[..k], replies, batch[k]);
    hide Handle;
  }

  // ---------------------------------------------------------------- nothing published silently

  ghost predicate Sound(b: Box) {
    forall i :: 0 <= i < |b.events| ==>
      && b.events[i].retries <= MAX_RETRY_COUNT
      && (b.events[i].published ==> b.events[i].reservation in b.accepted || b.events[i].retries == MAX_RETRY_COUNT)
  }

  lemma {:induction false} HandleAllIsSound(b: Box, batch: seq<nat>, replies: nat -> Reply)
    requires Sound(b) && forall i :: 0 <= i < |batch| ==> batch[i] < |b.events|
    ensures Sound(HandleAll(b, batch, replies))
  {
    if batch != [] {
      HandleAllIsSound(b, batch[..|batch| - 1], replies);
    }
  }

  // ---------------------------------------------------------------- the backlog drains

  function Budget(): Event -> int {
    (e: Event) => if e.published then 0 else MAX_RETRY_COUNT + 1 - e.retries
  }

  function Backlog(b: Box): int { Sum(b.events, Budget()) }

  lemma {:induction false} UntouchedUntilReached(b: Box, batch: seq<nat>, replies: nat -> Reply, i: nat)
    requires forall k :: 0 <= k < |batch| ==> batch[k] < |b.events|
    requires i < |b.events| && i !in batch
    ensures HandleAll(b, batch, replies).events[i] == b.events[i]
  {
    if batch != [] {
      UntouchedUntilReached(b, batch[..|batch| - 1], replies, i);
    }
  }

  /** Whatever the broker does, handling a batch of unpublished events spends at least one unit for each. */
  lemma {:induction false} HandlingSpends(b: Box, batch: seq<nat>, replies: nat -> Reply)
    requires Sound(b) && Ascending(batch)
    requires forall k :: 0 <= k < |batch| ==> batch[k] < |b.events| && !b.events[batch[k]].published
    ensures Backlog(HandleAll(b, batch, replies)) <= Backlog(b) - |batch|
  {
    if batch != [] {
      var n := |batch| - 1;
      var front := HandleAll(b, batch[..n], replies);
      HandlingSpends(b, batch[..n], replies);
      UntouchedUntilReached(b, batch[..n], replies, batch[n]);
      SumOneChange(front.events, Handle(front, batch[n], replies(n)).events, Budget(), Budget(), batch[n]);
    }
  }

  /** Each poll lowers the sum of (11 - retry_count) over unpublished events by at least the batch length. */
  lemma PollSpends(b: Box, limit: nat, replies: nat -> Reply)
    requires Sound(b)
    ensures Sound(Poll(b, limit, replies))
    ensures Backlog(Poll(b, limit, replies)) <= Backlog(b) - |Pending(b.events, 0, limit)|
    ensures 0 <= Backlog(Poll(b, limit, replies))
  {
    var batch := Pending(b.events, 0, limit);
    HandleAllIsSound(b, batch, replies);
    HandlingSpends(b, batch, replies);
    SumNonNegative(Poll(b, limit, replies).events, Budget());
  }

  function PollAll(b: Box, limit: nat, rounds: seq<nat -> Reply>): (after: Box)
    ensures |after.events| == |b.events|
  {
    if rounds == [] then b else Poll(PollAll(b, limit, rounds[..|rounds| - 1]), limit, rounds[|rounds| - 1])
  }

  lemma {:induction false} NothingPendingMeansPublished(events: seq<Event>, start: nat)
    requires start <= |events| && CountUnpublished(events, start) == 0
    ensures forall i :: start <= i < |events| ==> events[i].published
    decreases |events| - start
  {
    if start < |events| {
      NothingPendingMeansPublished(events, start + 1);
    }
  }

  lemma {:induction false} RoundsSpend(b: Box, limit: nat, rounds: seq<nat -> Reply>)
    requires Sound(b) && limit >= 1
    ensures var after := PollAll(b, limit, rounds);
      Sound(after) && (CountUnpublished(after.events, 0) == 0 || Backlog(after) + |rounds| <= Backlog(b))
  {
    if rounds != [] {
      var n := |rounds| - 1;
      var before := PollAll(b, limit, rounds[..n]);
      RoundsSpend(b, limit, rounds[..n]);
      PollSpends(before, limit, rounds[n]);
      if CountUnpublished(before.events, 0) == 0 {
        assert Pending(before.events, 0, limit) == [];
      }
    }
  }

  lemma UnpublishedCost(b: Box)
    requires Sound(b)
    ensures CountUnpublished(b.events, 0) > 0 ==> Backlog(b) >= 1
  {
    var batch := Pending(b.events, 0, 1);
    SumNonNegative(b.events, Budget());
    if CountUnpublished(b.events, 0) > 0 {
      assert Budget()(b.events[batch[0]]) >= 1;
    }
  }

  // ---------------------------------------------------------------- what an event goes through

  /** The reply event `i` gets in a batch, if it is in it. */
  function ReplyIn(batch: seq<nat>, replies: nat -> Reply, i: nat): seq<Reply> {
    if batch == [] then []
    else
      var n := |batch| - 1;
      ReplyIn(batch[..n], replies, i) + if batch[n] == i then [replies(n)] else []
  }

  /** The replies event `i` gets in all the polls that fetch it. */
  function Handlings(b: Box, limit: nat, rounds: seq<nat -> Reply>, i: nat): seq<Reply> {
    if rounds == [] then []
    else
      var n := |rounds| - 1;
      Handlings(b, limit, rounds[..n], i)
        + ReplyIn(Pending(PollAll(b, limit, rounds[..n]).events, 0, limit), rounds[n], i)
  }

  /**
   Every handling but the last has failed and is counted as one retry; the last one has too, unless the event
   is published by it: because it was accepted and recorded, or because ten failures had gone before.
   */
  ghost predicate Follows(e: Event, after: Event, handlings: seq<Reply>) {
    var n := |handlings|;
    && after == e.(published := after.published, retries := after.retries)
    && if e.published then handlings == [] && after == e
       else if !after.published then
         after.retries == e.retries + n && forall k :: 0 <= k < n ==> handlings[k] != Accepted
       else
         && n > 0 && after.retries == e.retries + n - 1
         && (forall k :: 0 <= k < n - 1 ==> handlings[k] != Accepted)
         && (after.retries >= 10 || handlings[n - 1] == Accepted)
  }

  /** The broker accepted the event in one of the handlings before ten failures. */
  ghost predicate Taken(e: Event, handlings: seq<Reply>) {
    exists k :: 0 <= k < |handlings| && e.retries + k < 10 && handlings[k] != Rejected
  }

  /** Once in an ascending batch, so one reply at most. */
  lemma {:induction false} BatchFollows(b: Box, batch: seq<nat>, replies: nat -> Reply, i: nat)
    requires Ascending(batch) && i < |b.events| && forall k :: 0 <= k < |batch| ==> batch[k] < |b.events|
    ensures var reply, after := ReplyIn(batch, replies, i), HandleAll(b, batch, replies).events[i];
      && |reply| <= 1 && (reply == [] <==> i !in batch)
      && after == if reply == [] then b.events[i] else Handled(b.events[i], reply[0])
    ensures forall k :: 0 <= k < |batch| && batch[k] == i ==> ReplyIn(batch, replies, i) == [replies(k)]
  {
    if batch != [] {
      var n := |batch| - 1;
      assert batch == batch[..n] + [batch[n]];
      BatchFollows(b, batch[..n], replies, i);
    }
  }

  lemma {:induction false} BatchAccepts(b: Box, batch: seq<nat>, replies: nat -> Reply, x: nat)
    requires Ascending(batch) && forall k :: 0 <= k < |batch| ==> batch[k] < |b.events|
    ensures x in HandleAll(b, batch, replies).accepted <==>
      || x in b.accepted
      || exists k :: 0 <= k < |batch| && b.events[batch[k]].reservation == x && Sent(b.events[batch[k]], replies(k))
  {
    if batch != [] {
      var n := |batch| - 1;
      BatchAccepts(b, batch[..n], replies, x);
      UntouchedUntilReached(b, batch[..n], replies, batch[n]);
      assert forall k :: 0 <= k < n ==> batch[..n][k] == batch[k];
    }
  }

  lemma OneMoreFollows(e: Event, between: Event, handlings: seq<Reply>, reply: seq<Reply>)
    requires Follows(e, between, handlings) && |reply| <= 1 && (reply != [] ==> !between.published)
    ensures Follows(e, if reply == [] then between else Handled(between, reply[0]), handlings + reply)
    ensures Taken(e, handlings + reply) <==> Taken(e, handlings) || (reply != [] && Sent(between, reply[0]))
  {
    var all := handlings + reply;
    assert forall k :: 0 <= k < |handlings| ==> all[k] == handlings[k];
    if reply != [] {
      assert all[|handlings|] == reply[0];
    }
  }

  lemma RoundFollows(b: Box, limit: nat, rounds: seq<nat -> Reply>, i: nat)
    requires rounds != [] && i < |b.events|
    requires var n := |rounds| - 1;
      Follows(b.events[i], PollAll(b, limit, rounds[..n]).events[i], Handlings(b, limit, rounds[..n], i))
    ensures var n := |rounds| - 1; var before := PollAll(b, limit, rounds[..n]);
      var reply := ReplyIn(Pending(before.events, 0, limit), rounds[n], i);
      && Follows(b.events[i], PollAll(b, limit, rounds).events[i], Handlings(b, limit, rounds, i))
      && |reply| <= 1
      && (Taken(b.events[i], Handlings(b, limit, rounds, i)) <==>
            || Taken(b.events[i], Handlings(b, limit, rounds[..n], i))
            || (reply != [] && Sent(before.events[i], reply[0])))
  {
    var n := |rounds| - 1;
    var before := PollAll(b, limit, rounds[..n]);
    var batch := Pending(before.events, 0, limit);
    BatchFollows(before, batch, rounds[n], i);
    hide Follows, Taken, Handled;
    OneMoreFollows(b.events[i], before.events[i], Handlings(b, limit, rounds[..n], i), ReplyIn(batch, rounds[n], i));
  }

  /** Over any polls, the retries of every event are exactly its failed handlings. */
  lemma {:induction false} RetriesCountFailures(b: Box, limit: nat, rounds: seq<nat -> Reply>, i: nat)
    requires i < |b.events|
    ensures Follows(b.events[i], PollAll(b, limit, rounds).events[i], Handlings(b, limit, rounds, i))
  {
    if rounds != [] {
      RetriesCountFailures(b, limit, rounds[..|rounds| - 1], i);
      RoundFollows(b, limit, rounds, i);
    }
  }

  /** The broker has accepted a reservation's event exactly when one of its handlings before ten failures says so. */
  lemma {:induction false} AcceptedExactlyWhen(b: Box, limit: nat, rounds: seq<nat -> Reply>, x: nat)
    ensures x in PollAll(b, limit, rounds).accepted <==>
      || x in b.accepted
      || exists i :: 0 <= i < |b.events| && b.events[i].reservation == x
           && Taken(b.events[i], Handlings(b, limit, rounds, i))
  {
    if rounds != [] {
      var n := |rounds| - 1;
      var before := PollAll(b, limit, rounds[..n]);
      var batch := Pending(before.events, 0, limit);
      AcceptedExactlyWhen(b, limit, rounds[..n], x);
      BatchAccepts(before, batch, rounds[n], x);
      hide Handled, Taken;
      forall i | 0 <= i < |b.events|
        ensures before.events[i].reservation == b.events[i].reservation
        ensures var reply := ReplyIn(batch, rounds[n], i);
          && (reply != [] <==> i in batch)
          && (Taken(b.events[i], Handlings(b, limit, rounds, i)) <==>
                || Taken(b.events[i], Handlings(b, limit, rounds[..n], i))
                || (reply != [] && Sent(before.events[i], reply[0])))
        ensures forall k :: 0 <= k < |batch| && batch[k] == i ==> ReplyIn(batch, rounds[n], i) == [rounds[n](k)]
      {
        RetriesCountFailures(b, limit, rounds[..n], i);
        RoundFollows(b, limit, rounds, i);
        BatchFollows(before, batch, rounds[n], i);
      }
    }
  }

  /** An event accepted and recorded before its tenth failure is published with the broker's acceptance. */
  lemma RecordedIsPublished(b: Box, limit: nat, rounds: seq<nat -> Reply>, i: nat, k: nat)
    requires i < |b.events| && !b.events[i].published && k < |Handlings(b, limit, rounds, i)|
    requires Handlings(b, limit, rounds, i)[k] == Accepted && b.events[i].retries + k < 10
    ensures var after := PollAll(b, limit, rounds);
      && after.events[i] == b.events[i].(published := true, retries := b.events[i].retries + k)
      && b.events[i].reservation in after.accepted
  {
    RetriesCountFailures(b, limit, rounds, i);
    AcceptedExactlyWhen(b, limit, rounds, b.events[i].reservation);
    assert Taken(b.events[i], Handlings(b, limit, rounds, i));
  }

  /**
   Published by an acceptance that was recorded before the tenth failure, or after failing ten times; events
   published before the handlings aside.
   */
  ghost predicate Drained(e: Event, after: Event, handlings: seq<Reply>, accepted: set<nat>) {
    var failures := |handlings| - 1;
    && after.published
    && (!e.published ==>
          && failures >= 0 && (forall k :: 0 <= k < failures ==> handlings[k] != Accepted)
          && if e.retries + failures < 10 then handlings[failures] == Accepted && e.reservation in accepted
             else e.retries + failures == 10)
  }

  lemma PublishedIsDrained(e: Event, after: Event, handlings: seq<Reply>, accepted: set<nat>)
    requires Follows(e, after, handlings) && after.published && after.retries <= 10
    requires Taken(e, handlings) ==> e.reservation in accepted
    ensures Drained(e, after, handlings, accepted)
  {
  }

  /**
   With no new events the outbox empties within as many polls as its backlog, whatever the
   broker does, and every event was then accepted by it or has failed ten times.
   */
  lemma OutboxDrains(b: Box, limit: nat, rounds: seq<nat -> Reply>)
    requires Sound(b) && limit >= 1 && |rounds| >= Backlog(b)
    ensures var after := PollAll(b, limit, rounds);
      forall i :: 0 <= i < |b.events| ==>
        Drained(b.events[i], after.events[i], Handlings(b, limit, rounds, i), after.accepted)
  {
    var after := PollAll(b, limit, rounds);
    RoundsSpend(b, limit, rounds);
    UnpublishedCost(after);
    NothingPendingMeansPublished(after.events, 0);
    hide PollAll, Handlings, Follows, Taken, Drained, Backlog, CountUnpublished;
    forall i | 0 <= i < |b.events|
      ensures Drained(b.events[i], after.events[i], Handlings(b, limit, rounds, i), after.accepted)
    {
      RetriesCountFailures(b, limit, rounds, i);
      AcceptedExactlyWhen(b, limit, rounds, b.events[i].reservation);
      PublishedIsDrained(b.events[i], after.events[i], Handlings(b, limit, rounds, i), after.accepted);
    }
  }
}
