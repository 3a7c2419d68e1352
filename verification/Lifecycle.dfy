/** What no run undoes: expiry, payment, and the order behind a confirmed reservation. */
module Lifecycle {
  import opened Tables
  import opened Expiry
  import opened Protocol
  import Outbox
  import Consumer

  /** Past its deadline and no longer live. */
  predicate Gone(r: Reservation, now: int) {
    !r.Live() && r.expiresAt < now
  }

  ghost predicate ExpiredAreGone(s: State) {
    forall r :: 0 <= r < |s.db.reservations| && s.db.reservations[r].status == Expired ==>
      Gone(s.db.reservations[r], s.now)
  }

  /** Rows and orders only get more final; rows expired meanwhile were overdue. */
  ghost predicate KeepsTables(db: Db, after: Db, now: int) {
    && |db.reservations| <= |after.reservations| && |db.orders| <= |after.orders|
    && (forall r :: 0 <= r < |db.reservations| && Gone(db.reservations[r], now) ==> Gone(after.reservations[r], now))
    && (forall o :: 0 <= o < |db.orders| && db.orders[o].status == Paid ==> after.orders[o] == db.orders[o])
    && (forall r :: 0 <= r < |after.reservations| && after.reservations[r].status == Expired ==>
          (r < |db.reservations| && db.reservations[r].status == Expired) || Gone(after.reservations[r], now))
  }

  ghost predicate Keeps(s: State, after: State) {
    && s.now <= after.now
    && |s.db.reservations| <= |after.db.reservations| && |s.db.orders| <= |after.db.orders|
    && (forall r :: 0 <= r < |s.db.reservations| && Gone(s.db.reservations[r], s.now) ==>
          Gone(after.db.reservations[r], after.now))
    && (forall o :: 0 <= o < |s.db.orders| && s.db.orders[o].status == Paid ==> after.db.orders[o] == s.db.orders[o])
  }

  lemma PayKeepsTables(db: Db, o: nat, user: nat, cardOk: bool, now: int)
    requires Constraints(db)
    ensures KeepsTables(db, Pay(db, o, user, cardOk, now), now)
  {
    assert References(db);
    hide Constraints;
  }

  lemma CancelKeepsTables(db: Db, o: nat, user: nat, now: int)
    requires Constraints(db)
    ensures KeepsTables(db, Cancel(db, o, user), now)
  {
    assert References(db);
    hide Constraints;
  }

  lemma DeliverKeepsTables(db: Db, r: nat, writes: nat, now: int)
    requires Constraints(db)
    ensures KeepsTables(db, Deliver(db, r, writes).0, now)
  {
    hide Constraints;
  }

  lemma ExpiryKeepsTables(db: Db, ids: seq<nat>, now: int)
    requires Rows(db, ids) && forall i :: 0 <= i < |ids| ==> Overdue(db.reservations[ids[i]], now)
    ensures KeepsTables(db, ExpireBulk(db, Ids(ids)), now)
  {
    assert forall r :: r in Ids(ids) ==> r < |db.reservations| && Overdue(db.reservations[r], now);
  }

  lemma PendingRowsKeepTables(db: Db, after: Db, now: int)
    requires PendingRowsOnly(db, after)
    ensures KeepsTables(db, after, now)
  {
  }

  lemma SameTablesKept(db: Db, now: int)
    ensures KeepsTables(db, db, now)
  {
  }

  lemma TablesKept(s: State, after: State)
    requires KeepsTables(s.db, after.db, s.now) && s.now <= after.now
    ensures Keeps(s, after)
    ensures ExpiredAreGone(s) ==> ExpiredAreGone(after)
  {
  }

  lemma StepKeeps(s: State, step: Step)
    requires Constraints(s.db)
    ensures Keeps(s, Next(s, step))
    ensures ExpiredAreGone(s) ==> ExpiredAreGone(Next(s, step))
  {
    hide Constraints, Pay, Cancel, Deliver, ExpireBulk, Keeps, KeepsTables, ExpiredAreGone, PendingRowsOnly;
    hide Arrived, UnitsReserved, Persisted, Compensated, Modified, Polled;
    match step {
      case Consume(r, writes, _) => DeliverKeepsTables(s.db, r, writes, s.now);
      case PayOrder(o, user, cardOk) => PayKeepsTables(s.db, o, user, cardOk, s.now);
      case CancelOrder(o, user) => CancelKeepsTables(s.db, o, user, s.now);
      case ExpireRows(ids, _) =>
        if Rows(s.db, ids) && forall i :: 0 <= i < |ids| ==> Overdue(s.db.reservations[ids[i]], s.now) {
          ExpiryKeepsTables(s.db, ids, s.now);
        } else {
          SameTablesKept(s.db, s.now);
        }
      case _ =>
        OtherStepsChangePendingRowsOnly(s, step);
        PendingRowsKeepTables(s.db, Next(s, step).db, s.now);
    }
    TablesKept(s, Next(s, step));
  }

  lemma {:induction false} RunKeeps(s: State, steps: seq<Step>)
    requires Constraints(s.db)
    ensures Keeps(s, Run(s, steps))
    ensures ExpiredAreGone(s) ==> ExpiredAreGone(Run(s, steps))
  {
    hide Next, Constraints;
    if steps != [] {
      RunKeeps(s, steps[..|steps| - 1]);
      StepKeeps(Run(s, steps[..|steps| - 1]), steps[|steps| - 1]);
    }
  }

  /** Once a run has expired a reservation, no continuation makes it pending or confirmed again. */
  lemma ExpiredNeverComesBack(stock: map<nat, nat>, steps: seq<Step>, more: seq<Step>, r: nat)
    ensures var before := Run(Init(stock), steps).db.reservations;
      var after := Run(Init(stock), steps + more).db.reservations;
      r < |before| && before[r].status == Expired ==> r < |after| && !after[r].Live()
  {
    hide Next, Constraints;
    RunKeeps(Init(stock), steps);
    RunKeeps(Run(Init(stock), steps), more);
    RunAppend(Init(stock), steps, more);
  }

  /** A paid order stays exactly as it was paid. */
  lemma PaidStaysPaid(stock: map<nat, nat>, steps: seq<Step>, more: seq<Step>, o: nat)
    ensures var before := Run(Init(stock), steps).db.orders;
      var after := Run(Init(stock), steps + more).db.orders;
      o < |before| && before[o].status == Paid ==> o < |after| && after[o] == before[o]
  {
    hide Next, Constraints;
    RunKeeps(Run(Init(stock), steps), more);
    RunAppend(Init(stock), steps, more);
  }

  // ---------------------------------------------------------------- confirmed implies ordered

  ghost predicate ConfirmedAreOrdered(db: Db) {
    forall r :: 0 <= r < |db.reservations| && db.reservations[r].status == Confirmed ==> HasOrder(db, r)
  }

  lemma StepKeepsOrdered(s: State, step: Step)
    requires Constraints(s.db) && ConfirmedAreOrdered(s.db)
    ensures ConfirmedAreOrdered(Next(s, step).db)
  {
    hide Constraints, Pay, Cancel, Deliver, ExpireBulk;
    match step
    case Persist(f, ttl) =>
    case ModifyQuantity(r, _, _, _) =>
    case Consume(r, writes, _) => DeliverKeepsOrdered(s.db, r, writes);
    case PayOrder(o, user, cardOk) => PayKeepsOrdered(s.db, o, user, cardOk, s.now);
    case CancelOrder(o, user) => CancelKeepsOrdered(s.db, o, user);
    case ExpireRows(ids, _) => ExpiryKeepsOrdered(s.db, Ids(ids));
    case _ =>
  }

  lemma SameOrdersServe(db: Db, after: Db)
    requires ConfirmedAreOrdered(db) && |after.reservations| >= |db.reservations| && |after.orders| >= |db.orders|
    requires forall o :: 0 <= o < |db.orders| ==> after.orders[o].reservation == db.orders[o].reservation
    requires forall r :: 0 <= r < |after.reservations| && after.reservations[r].status == Confirmed ==>
      (r < |db.reservations| && db.reservations[r].status == Confirmed) || HasOrder(after, r)
    ensures ConfirmedAreOrdered(after)
  {
    forall r | 0 <= r < |after.reservations| && after.reservations[r].status == Confirmed ensures HasOrder(after, r) {
      if !HasOrder(after, r) {
        assert HasOrder(db, r);
      }
    }
  }

  lemma DeliverKeepsOrdered(db: Db, r: nat, writes: nat)
    requires Constraints(db) && ConfirmedAreOrdered(db)
    ensures ConfirmedAreOrdered(Deliver(db, r, writes).0)
  {
    hide Constraints;
    var after := Deliver(db, r, writes).0;
    if |after.orders| > |db.orders| {
      assert after.orders[|db.orders|].reservation == r;
    }
    SameOrdersServe(db, after);
  }

  lemma PayKeepsOrdered(db: Db, o: nat, user: nat, cardOk: bool, now: int)
    requires Constraints(db) && ConfirmedAreOrdered(db)
    ensures ConfirmedAreOrdered(Pay(db, o, user, cardOk, now))
  {
    assert References(db);
    hide Constraints;
    SameOrdersServe(db, Pay(db, o, user, cardOk, now));
  }

  lemma CancelKeepsOrdered(db: Db, o: nat, user: nat)
    requires Constraints(db) && ConfirmedAreOrdered(db)
    ensures ConfirmedAreOrdered(Cancel(db, o, user))
  {
    assert References(db);
    hide Constraints;
    SameOrdersServe(db, Cancel(db, o, user));
  }

  lemma ExpiryKeepsOrdered(db: Db, ids: set<nat>)
    requires ConfirmedAreOrdered(db)
    ensures ConfirmedAreOrdered(ExpireBulk(db, ids))
  {
    SameOrdersServe(db, ExpireBulk(db, ids));
  }

  /** After every run, crashes and redeliveries included, a confirmed reservation has exactly one order. */
  lemma {:induction false} ConfirmedImpliesOrdered(stock: map<nat, nat>, steps: seq<Step>)
    ensures var db := Run(Init(stock), steps).db; ConfirmedAreOrdered(db) && OneOrderPerReservation(db.orders)
  {
    assert OneOrderPerReservation(Run(Init(stock), steps).db.orders);
    hide Next, Constraints;
    if steps != [] {
      ConfirmedImpliesOrdered(stock, steps[..|steps| - 1]);
      StepKeepsOrdered(Run(Init(stock), steps[..|steps| - 1]), steps[|steps| - 1]);
    }
  }

  // ---------------------------------------------------------------- nothing is lost on the way

  /** The event of row `r` is row `r` of the outbox, because both are written by one transaction. */
  ghost predicate OneEventPerRow(db: Db) {
    && |db.events| == |db.reservations|
    && forall e :: 0 <= e < |db.events| ==>
         db.events[e].reservation == e && db.events[e].retries <= Outbox.MAX_RETRY_COUNT
  }

  /** Still to be published, given up after ten failures, queued, or dead-lettered. */
  ghost predicate OnItsWay(s: State, r: nat)
    requires r < |s.db.events|
  {
    || !s.db.events[r].published
    || s.db.events[r].retries == Outbox.MAX_RETRY_COUNT
    || r in s.broker
    || r in s.dead
  }

  ghost predicate NothingLost(s: State) {
    && OneEventPerRow(s.db)
    && forall r :: 0 <= r < |s.db.reservations| && s.db.reservations[r].status == Pending && !HasOrder(s.db, r) ==>
         OnItsWay(s, r)
  }

  /** Same events, and no row newly waiting for its order. */
  ghost predicate NoneNewlyWaiting(db: Db, after: Db) {
    && |after.reservations| == |db.reservations| && after.events == db.events
    && forall r :: 0 <= r < |db.reservations| && after.reservations[r].status == Pending && !HasOrder(after, r) ==>
         db.reservations[r].status == Pending && !HasOrder(db, r)
  }

  lemma OrdersKept(db: Db, after: Db)
    requires |after.reservations| == |db.reservations| && after.events == db.events && |db.orders| <= |after.orders|
    requires forall o :: 0 <= o < |db.orders| ==> after.orders[o].reservation == db.orders[o].reservation
    requires forall r :: 0 <= r < |db.reservations| && after.reservations[r].status == Pending ==>
      db.reservations[r].status == Pending
    ensures NoneNewlyWaiting(db, after)
  {
    forall r | 0 <= r < |db.reservations| && HasOrder(db, r) ensures HasOrder(after, r) {
      var o :| 0 <= o < |db.orders| && db.orders[o].reservation == r;
      assert after.orders[o].reservation == r;
    }
  }

  lemma PayAndCancelLoseNothing(db: Db, id: nat, user: nat, cardOk: bool, now: int)
    requires Constraints(db)
    ensures NoneNewlyWaiting(db, Pay(db, id, user, cardOk, now))
    ensures NoneNewlyWaiting(db, Cancel(db, id, user))
  {
    assert References(db);
    hide Constraints;
    OrdersKept(db, Pay(db, id, user, cardOk, now));
    OrdersKept(db, Cancel(db, id, user));
  }

  lemma SameTablesLoseNothing(db: Db)
    ensures NoneNewlyWaiting(db, db)
  {
  }

  lemma ExpiryLosesNothing(db: Db, ids: set<nat>)
    ensures NoneNewlyWaiting(db, ExpireBulk(db, ids))
  {
    OrdersKept(db, ExpireBulk(db, ids));
  }

  lemma ModifyLosesNothing(s: State, r: nat, user: nat, quantity: Units, ttl: Units)
    requires Constraints(s.db)
    ensures NoneNewlyWaiting(s.db, Modified(s, r, user, quantity, ttl).db)
  {
    hide Constraints;
    OrdersKept(s.db, Modified(s, r, user, quantity, ttl).db);
  }

  /** A delivery that is acknowledged leaves its reservation settled or ordered. */
  lemma DeliverLosesNothing(db: Db, r: nat, writes: nat)
    requires Constraints(db)
    ensures NoneNewlyWaiting(db, Deliver(db, r, writes).0)
    ensures Deliver(db, r, writes).1 == Skipped || Deliver(db, r, writes).1 == Done ==>
      var after := Deliver(db, r, writes).0;
      r < |after.reservations| ==> after.reservations[r].status != Pending
  {
    hide Constraints;
    OrdersKept(db, Deliver(db, r, writes).0);
  }

  lemma ConsumeLosesNothing(s: State, r: nat, writes: nat, raised: bool)
    requires Constraints(s.db) && NothingLost(s)
    ensures NothingLost(Consumed(s, r, writes, raised))
  {
    hide Constraints, Deliver, HasOrder;
    DeliverLosesNothing(s.db, r, writes);
  }

  lemma PollLosesNothing(s: State, e: nat, reply: Outbox.Reply)
    requires Constraints(s.db) && NothingLost(s)
    ensures NothingLost(Polled(s, e, reply))
  {
    hide Constraints;
    var after := Polled(s, e, reply);
    assert forall r :: HasOrder(after.db, r) <==> HasOrder(s.db, r);
    hide HasOrder;
  }

  lemma PersistLosesNothing(s: State, f: nat, ttl: Units)
    requires Constraints(s.db) && NothingLost(s)
    ensures NothingLost(Persisted(s, f, ttl))
  {
    hide Constraints;
    var after := Persisted(s, f, ttl);
    assert forall r :: HasOrder(after.db, r) <==> HasOrder(s.db, r);
    hide HasOrder;
  }

  /**
   A message is acknowledged exactly when its row is not pending, or the delivery is complete and was not
   refused; it is dead-lettered exactly when a table constraint or the consumer raises before that; and it
   stays queued when the consumer dies.
   */
  lemma MessagesEndExactlyWhen(s: State, r: nat, writes: nat, raised: bool)
    requires Constraints(s.db)
    ensures var after, rows := Next(s, Consume(r, writes, raised)), s.db.reservations;
      var pending := r < |rows| && rows[r].status == Pending && rows[r].sale in s.db.inventory;
      var ordered := exists o :: 0 <= o < |s.db.orders| && s.db.orders[o].reservation == r;
      var full := pending && var stock := s.db.inventory[rows[r].sale];
        stock.reserved + stock.sold + rows[r].quantity > stock.total;
      var refused := (writes >= 1 && ordered) || (writes >= 3 && full);
      if r !in s.broker then after == s
      else if !pending || (writes >= 3 && !refused) then
        after.broker == s.broker - multiset{r} && after.dead == s.dead
      else if raised || refused then
        after.broker == s.broker - multiset{r} && after.dead == s.dead + multiset{r}
      else after.broker == s.broker && after.dead == s.dead
  {
    DeliveriesEnd(s.db, r, writes);
    assert References(s.db);
    hide Constraints, Deliver;
  }

  lemma DeliveriesEnd(db: Db, r: nat, writes: nat)
    requires Constraints(db)
    ensures var outcome := Deliver(db, r, writes).1;
      if r >= |db.reservations| || db.reservations[r].status != Pending then outcome == Skipped
      else
        && db.reservations[r].sale in db.inventory
        && (outcome == Refused <==>
              (writes >= 1 && HasOrder(db, r)) || (writes >= 3 && !Consumer.RoomFor(db, r)))
        && (outcome == Done <==> writes >= 3 && !HasOrder(db, r) && Consumer.RoomFor(db, r))
        && outcome != Skipped
  {
    Consumer.DeliveryByCases(db, r);
    if r < |db.reservations| {
      Consumer.OrderIsUnique(db, r);
      assert References(db);
    }
    hide Constraints;
  }

  /**
   Publishing adds one message for its row, and a poll one for an event with retries left that the broker
   accepts; only consuming takes a message away, and any other step leaves all messages where they are.
   */
  lemma MessagesAreKept(s: State, step: Step)
    requires Constraints(s.db) && !step.Consume?
    ensures var after := Next(s, step);
      match step
      case PublishDirectly(r) =>
        after == if r < |s.db.reservations| then s.(broker := s.broker + multiset{r}) else s
      case DeadLetter(r) =>
        after == if r in s.broker then s.(broker := s.broker - multiset{r}, dead := s.dead + multiset{r}) else s
      case PollEvent(e, reply) =>
        var sent := e < |s.db.events| && !s.db.events[e].published && s.db.events[e].retries < 10
          && reply != Outbox.Rejected;
        && after.broker == (if sent then s.broker + multiset{s.db.events[e].reservation} else s.broker)
        && after.dead == s.dead
      case _ => after.broker == s.broker && after.dead == s.dead
  {
    hide Constraints, ReleaseRows, ExpireBulk, Pay, Cancel;
    hide PassesChecks, RowInserted, WithQuantity;
  }

  /** No message disappears: it stays queued, or is dead-lettered. */
  ghost predicate MessagesStay(s: State, after: State) {
    forall r :: r in s.broker || r in s.dead ==> r in after.broker || r in after.dead
  }

  /** Only consuming a message can make it disappear. */
  lemma OtherStepsKeepMessages(s: State, step: Step)
    requires Constraints(s.db) && !step.Consume?
    ensures MessagesStay(s, Next(s, step))
  {
    hide Constraints;
  }

  lemma SettlingLosesNothing(s: State, after: State)
    requires NothingLost(s) && NoneNewlyWaiting(s.db, after.db) && MessagesStay(s, after)
    ensures NothingLost(after)
  {
    hide HasOrder;
  }

  lemma StepLosesNothing(s: State, step: Step)
    requires Constraints(s.db) && NothingLost(s)
    ensures NothingLost(Next(s, step))
  {
    hide Constraints, NothingLost, NoneNewlyWaiting, MessagesStay;
    hide Pay, Cancel, ExpireBulk, Modified, Persisted, Consumed, Polled;
    if !step.Consume? {
      OtherStepsKeepMessages(s, step);
    }
    SameTablesLoseNothing(s.db);
    match step
    case Persist(f, ttl) => PersistLosesNothing(s, f, ttl);
    case PollEvent(e, reply) => PollLosesNothing(s, e, reply);
    case Consume(r, writes, raised) => ConsumeLosesNothing(s, r, writes, raised);
    case PayOrder(o, user, cardOk) =>
      PayAndCancelLoseNothing(s.db, o, user, cardOk, s.now);
      SettlingLosesNothing(s, Next(s, step));
    case CancelOrder(o, user) =>
      PayAndCancelLoseNothing(s.db, o, user, true, s.now);
      SettlingLosesNothing(s, Next(s, step));
    case ModifyQuantity(r, user, quantity, ttl) =>
      ModifyLosesNothing(s, r, user, quantity, ttl);
      SettlingLosesNothing(s, Next(s, step));
    case ExpireRows(ids, _) =>
      ExpiryLosesNothing(s.db, Ids(ids));
      SettlingLosesNothing(s, Next(s, step));
    case _ =>
      SettlingLosesNothing(s, Next(s, step));
  }

  /**
   No silent loss: a pending reservation without an order always has an event still to be
   published, one given up after ten failures, a queued message, or a dead-lettered one.
   */
  lemma {:induction false} NoSilentLoss(stock: map<nat, nat>, steps: seq<Step>)
    ensures NothingLost(Run(Init(stock), steps))
  {
    hide Next, Constraints;
    if steps != [] {
      NoSilentLoss(stock, steps[..|steps| - 1]);
      StepLosesNothing(Run(Init(stock), steps[..|steps| - 1]), steps[|steps| - 1]);
    }
  }
}
