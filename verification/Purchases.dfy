/** One paid purchase per user and sale: exactly when it holds, over all runs. */
module Purchases {
  import opened Tables
  import opened Expiry
  import opened Protocol

  ghost predicate AtMostOnePaid(db: Db) {
    forall i, j :: 0 <= i < j < |db.orders| && db.orders[i].status == Paid && db.orders[j].status == Paid ==>
      db.orders[i].user != db.orders[j].user || db.orders[i].sale != db.orders[j].sale
  }

  /** Orders belong to their reservation's user and sale, and an unpaid order's reservation is live. */
  ghost predicate UnpaidAreLive(db: Db) {
    forall o :: 0 <= o < |db.orders| ==>
      var order := db.orders[o];
      && order.reservation < |db.reservations|
      && order.user == db.reservations[order.reservation].user
      && order.sale == db.reservations[order.reservation].sale
      && (order.status == Unpaid ==> db.reservations[order.reservation].Live())
  }

  /** A buyer who has paid has no live reservation but the paid one. */
  ghost predicate PaidHaveNoOther(db: Db) {
    forall o, r | 0 <= o < |db.orders| && 0 <= r < |db.reservations| && r != db.orders[o].reservation ::
      db.orders[o].status == Paid && db.reservations[r].Live() && db.reservations[r].user == db.orders[o].user ==>
        db.reservations[r].sale != db.orders[o].sale
  }

  ghost predicate OnePurchase(db: Db) {
    UnpaidAreLive(db) && PaidHaveNoOther(db) && AtMostOnePaid(db)
  }

  // ---------------------------------------------------------------- exactly when nobody buys twice

  /** Another order of the same buyer for the same sale is paid. */
  predicate PaidAnother(db: Db, o: nat)
    requires o < |db.orders|
  {
    exists p :: 0 <= p < |db.orders| && p != o && db.orders[p].user == db.orders[o].user
      && db.orders[p].sale == db.orders[o].sale && db.orders[p].status == Paid
  }

  /** Whatever the order's status was, marking it paid keeps purchases single exactly when no other is paid. */
  lemma PaidTablesKeepOneExactlyWhen(db: Db, o: nat)
    requires Constraints(db) && o < |db.orders|
    ensures AtMostOnePaid(PaidTables(db, o)) <==> AtMostOnePaid(db) && !PaidAnother(db, o)
  {
    hide Constraints;
    var after := PaidTables(db, o);
    assert after.orders[o].status == Paid;
    assert forall p :: 0 <= p < |db.orders| && p != o ==> after.orders[p] == db.orders[p];
    if AtMostOnePaid(after) {
      forall i, j | 0 <= i < j < |db.orders| && db.orders[i].status == Paid && db.orders[j].status == Paid
        ensures db.orders[i].user != db.orders[j].user || db.orders[i].sale != db.orders[j].sale
      {
        assert after.orders[i].status == Paid && after.orders[j].status == Paid;
      }
      forall p | 0 <= p < |db.orders| && p != o && db.orders[p].status == Paid
        ensures db.orders[p].user != db.orders[o].user || db.orders[p].sale != db.orders[o].sale
      {
        var i, j := if p < o then p else o, if p < o then o else p;
        assert after.orders[i].status == Paid && after.orders[j].status == Paid;
      }
    }
  }

  /**
   An accepted payment keeps purchases single exactly when its buyer has no paid order for the sale:
   the check create_reservation makes and pay_order does not.
   */
  lemma PaymentKeepsOneExactlyWhen(db: Db, o: nat, user: nat, cardOk: bool, now: int)
    requires Constraints(db) && AtMostOnePaid(db)
    requires PayReplyTo(db, o, user, cardOk, now) == PaymentDone
    ensures AtMostOnePaid(Pay(db, o, user, cardOk, now)) <==> !HasPaidOrder(db, user, db.orders[o].sale)
  {
    hide Constraints, AtMostOnePaid, PaidTables;
    PaidTablesKeepOneExactlyWhen(db, o);
  }

  /** An accepted payment of a buyer who already has a paid order for the sale. */
  predicate PaidAgain(s: State, step: Step)
    requires Constraints(s.db)
  {
    && step.PayOrder?
    && PayReplyTo(s.db, step.order, step.user, step.cardOk, s.now) == PaymentDone
    && HasPaidOrder(s.db, step.user, s.db.orders[step.order].sale)
  }

  /** Paid orders are neither added nor changed. */
  ghost predicate SamePaid(db: Db, after: Db) {
    && |db.orders| <= |after.orders|
    && forall o :: 0 <= o < |after.orders| ==>
         if o < |db.orders| && db.orders[o].status == Paid then after.orders[o] == db.orders[o]
         else after.orders[o].status != Paid
  }

  lemma SamePaidSameBuyers(db: Db, after: Db)
    requires SamePaid(db, after)
    ensures AtMostOnePaid(after) <==> AtMostOnePaid(db)
  {
    if AtMostOnePaid(after) {
      forall i, j | 0 <= i < j < |db.orders| && db.orders[i].status == Paid && db.orders[j].status == Paid
        ensures db.orders[i].user != db.orders[j].user || db.orders[i].sale != db.orders[j].sale
      {
        assert after.orders[i] == db.orders[i] && after.orders[j] == db.orders[j];
      }
    }
  }

  lemma CancelDeliverAndExpiryPayNothing(db: Db, id: nat, user: nat, writes: nat, ids: set<nat>)
    requires Constraints(db)
    ensures SamePaid(db, Cancel(db, id, user))
    ensures SamePaid(db, Deliver(db, id, writes).0)
    ensures SamePaid(db, ExpireBulk(db, ids))
  {
    hide Constraints, UnitsOf;
  }

  lemma PaidStayPaid(db: Db, o: nat, user: nat, cardOk: bool, now: int)
    requires Constraints(db) && AtMostOnePaid(Pay(db, o, user, cardOk, now))
    ensures AtMostOnePaid(db)
  {
    hide Constraints;
    var after := Pay(db, o, user, cardOk, now);
    forall i, j | 0 <= i < j < |db.orders| && db.orders[i].status == Paid && db.orders[j].status == Paid
      ensures db.orders[i].user != db.orders[j].user || db.orders[i].sale != db.orders[j].sale
    {
      assert after.orders[i] == db.orders[i] && after.orders[j] == db.orders[j];
    }
  }

  lemma PayStepExactlyWhen(s: State, o: nat, user: nat, cardOk: bool)
    requires Constraints(s.db)
    ensures AtMostOnePaid(Pay(s.db, o, user, cardOk, s.now))
      <==> AtMostOnePaid(s.db) && !PaidAgain(s, PayOrder(o, user, cardOk))
  {
    hide Constraints, AtMostOnePaid, HasPaidOrder, PaidTables;
    if AtMostOnePaid(Pay(s.db, o, user, cardOk, s.now)) {
      PaidStayPaid(s.db, o, user, cardOk, s.now);
    }
    if AtMostOnePaid(s.db) && PayReplyTo(s.db, o, user, cardOk, s.now) == PaymentDone {
      PaymentKeepsOneExactlyWhen(s.db, o, user, cardOk, s.now);
    }
  }

  lemma StepKeepsOneExactlyWhen(s: State, step: Step)
    requires Constraints(s.db)
    ensures AtMostOnePaid(Next(s, step).db) <==> AtMostOnePaid(s.db) && !PaidAgain(s, step)
  {
    hide Constraints, AtMostOnePaid, SamePaid, Pay, Cancel, Deliver, ExpireBulk, Rows, PaidAgain;
    hide Arrived, UnitsReserved, Persisted, Compensated, Modified, Polled;
    match step {
      case PayOrder(o, user, cardOk) => PayStepExactlyWhen(s, o, user, cardOk);
      case _ =>
        OnlyPaymentsPay(s, step);
        SamePaidSameBuyers(s.db, Next(s, step).db);
    }
  }

  lemma OnlyPaymentsPay(s: State, step: Step)
    requires Constraints(s.db) && !step.PayOrder?
    ensures SamePaid(s.db, Next(s, step).db) && !PaidAgain(s, step)
  {
    hide Constraints, SamePaid, Pay, Cancel, Deliver, ExpireBulk, Rows;
    hide Arrived, UnitsReserved, Persisted, Compensated, Modified, Polled;
    SameOrdersSamePaid(s.db, s.db);
    match step
    case Consume(r, writes, _) => CancelDeliverAndExpiryPayNothing(s.db, r, 0, writes, {});
    case CancelOrder(o, user) => CancelDeliverAndExpiryPayNothing(s.db, o, user, 0, {});
    case ExpireRows(ids, _) => CancelDeliverAndExpiryPayNothing(s.db, 0, 0, 0, Ids(ids));
    case PayOrder(_, _, _) =>
    case _ =>
      OtherStepsChangePendingRowsOnly(s, step);
      SameOrdersSamePaid(s.db, Next(s, step).db);
  }

  lemma SameOrdersSamePaid(db: Db, after: Db)
    requires after.orders == db.orders
    ensures SamePaid(db, after)
  {
  }

  ghost predicate NobodyPaysAgain(s: State, steps: seq<Step>)
    requires Constraints(s.db)
  {
    forall i :: 0 <= i < |steps| ==> !PaidAgain(Run(s, steps[..i]), steps[i])
  }

  /**
   One paid purchase: a run ends with at most one paid order per user and sale exactly when no payment
   it accepted was for a buyer who already had a paid order for that sale.
   */
  lemma {:induction false} OnePaidPurchaseExactlyWhen(stock: map<nat, nat>, steps: seq<Step>)
    ensures AtMostOnePaid(Run(Init(stock), steps).db) <==> NobodyPaysAgain(Init(stock), steps)
  {
    hide Next, Constraints, PaidAgain;
    if steps != [] {
      var front := steps[..|steps| - 1];
      assert forall i :: 0 <= i < |front| ==> front[..i] == steps[..i];
      OnePaidPurchaseExactlyWhen(stock, front);
      StepKeepsOneExactlyWhen(Run(Init(stock), front), steps[|steps| - 1]);
    }
  }

  // ---------------------------------------------------------------- pending orders of careful runs

  /** A buyer with a pending order has paid for no other of the sale. */
  lemma PendingHaveNotPaid(db: Db, o: nat)
    requires OnePurchase(db) && OneOrderPerReservation(db.orders) && o < |db.orders| && db.orders[o].status == Unpaid
    ensures !HasPaidOrder(db, db.orders[o].user, db.orders[o].sale)
  {
  }

  lemma PaymentKeepsOnePurchase(db: Db, o: nat, user: nat, cardOk: bool, now: int)
    requires Constraints(db) && OnePurchase(db)
    requires PayReplyTo(db, o, user, cardOk, now) == PaymentDone && !HasPaidOrder(db, user, db.orders[o].sale)
    ensures OnePurchase(Pay(db, o, user, cardOk, now))
  {
    var after := PaidTables(db, o);
    assert OneOrderPerReservation(db.orders) && OneLivePerUserAndSale(after.reservations);
    PaymentKeepsOneExactlyWhen(db, o, user, cardOk, now);
    hide Constraints;
    var paid := db.orders[o].reservation;
    assert forall r :: 0 <= r < |db.reservations| && r != paid ==> after.reservations[r] == db.reservations[r];
    assert after.reservations[paid].Live();
    assert PaidHaveNoOther(after);
  }

  /** A new row leaves every buyer's other reservations unpaid exactly when its own buyer has no paid order. */
  lemma NewRowKeepsOneExactlyWhen(db: Db, user: nat, sale: nat, quantity: Units, key: nat, now: int, ttl: int)
    requires OnePurchase(db)
    ensures OnePurchase(WithReservation(db, user, sale, quantity, key, now, ttl)) <==> !HasPaidOrder(db, user, sale)
  {
    var after := WithReservation(db, user, sale, quantity, key, now, ttl);
    assert forall r :: 0 <= r < |db.reservations| ==> after.reservations[r] == db.reservations[r];
    assert after.reservations[|db.reservations|].Live();
    if o :| 0 <= o < |db.orders| && db.orders[o].user == user && db.orders[o].sale == sale
            && db.orders[o].status == Paid {
      assert db.orders[o].reservation < |db.reservations|;
      assert !PaidHaveNoOther(after);
    }
  }

  // ---------------------------------------------------------------- the other transactions

  lemma CancelKeepsOne(db: Db, o: nat, user: nat)
    requires Constraints(db) && OnePurchase(db)
    ensures OnePurchase(Cancel(db, o, user))
  {
    assert OneOrderPerReservation(db.orders);
    hide Constraints;
  }

  lemma ExpiryKeepsOne(db: Db, ids: set<nat>)
    requires OnePurchase(db)
    ensures OnePurchase(ExpireBulk(db, ids))
  {
    hide UnitsOf;
  }

  lemma NewQuantityKeepsOne(db: Db, r: nat, quantity: Units, expiresAt: int)
    requires OnePurchase(db) && r < |db.reservations|
    ensures OnePurchase(WithQuantity(db, r, quantity, expiresAt))
  {
    var after := WithQuantity(db, r, quantity, expiresAt);
    assert forall i :: 0 <= i < |db.reservations| ==>
      after.reservations[i].user == db.reservations[i].user && after.reservations[i].sale == db.reservations[i].sale
      && after.reservations[i].status == db.reservations[i].status;
  }

  lemma NewOrderKeepsOne(db: Db, r: nat)
    requires OnePurchase(db) && r < |db.reservations| && db.reservations[r].status == Pending
    ensures OnePurchase(WithOrder(db, r)) && OnePurchase(WithConfirmed(WithOrder(db, r), r))
  {
    var ordered := WithOrder(db, r);
    assert forall o :: 0 <= o < |db.orders| ==> ordered.orders[o] == db.orders[o];
    assert OnePurchase(ordered);
    var confirmed := WithConfirmed(ordered, r);
    assert forall i :: 0 <= i < |db.reservations| ==>
      && confirmed.reservations[i].user == db.reservations[i].user
      && confirmed.reservations[i].sale == db.reservations[i].sale
      && confirmed.reservations[i].Live() == db.reservations[i].Live();
  }

  lemma DeliverKeepsOne(db: Db, r: nat, writes: nat)
    requires Constraints(db) && OnePurchase(db)
    ensures OnePurchase(Deliver(db, r, writes).0)
  {
    hide Constraints;
    if r < |db.reservations| && db.reservations[r].status == Pending {
      NewOrderKeepsOne(db, r);
    }
  }

  // ---------------------------------------------------------------- all careful runs

  /**
   Step 2's paid-order check still holds when the row is written; and an order that is neither
   pending nor paid, such as a cancelled one, is paid only if its buyer passes the same check.
   */
  predicate Careful(s: State, step: Step) {
    match step
    case Persist(f, _) => In(s, f, Holding) ==> !HasPaidOrder(s.db, s.flights[f].user, s.flights[f].sale)
    case PayOrder(o, _, _) =>
      o < |s.db.orders| && s.db.orders[o].status != Unpaid && s.db.orders[o].status != Paid ==>
        !HasPaidOrder(s.db, s.db.orders[o].user, s.db.orders[o].sale)
    case _ => true
  }

  ghost predicate CarefulRun(s: State, steps: seq<Step>)
    requires Constraints(s.db)
  {
    forall i :: 0 <= i < |steps| ==> Careful(Run(s, steps[..i]), steps[i])
  }

  lemma StepKeepsOne(s: State, step: Step)
    requires Constraints(s.db) && OnePurchase(s.db) && Careful(s, step)
    ensures OnePurchase(Next(s, step).db)
  {
    hide Constraints, OnePurchase, Pay, Cancel, Deliver, Rows;
    match step
    case Persist(f, ttl) =>
      if In(s, f, Holding) {
        var flight := s.flights[f];
        NewRowKeepsOneExactlyWhen(s.db, flight.user, flight.sale, flight.quantity, flight.key, s.now, ttl);
      }
    case ModifyQuantity(r, _, quantity, ttl) =>
      if r < |s.db.reservations| {
        NewQuantityKeepsOne(s.db, r, quantity, s.now + ttl);
      }
    case PollEvent(e, reply) => SameTablesKeepOne(s.db, Next(s, step).db);
    case Consume(r, writes, _) => DeliverKeepsOne(s.db, r, writes);
    case PayOrder(o, user, cardOk) => PayKeepsOne(s, o, user, cardOk);
    case CancelOrder(o, user) => CancelKeepsOne(s.db, o, user);
    case ExpireRows(ids, _) => ExpiryKeepsOne(s.db, Ids(ids));
    case _ =>
  }

  lemma PayKeepsOne(s: State, o: nat, user: nat, cardOk: bool)
    requires Constraints(s.db) && OnePurchase(s.db) && Careful(s, PayOrder(o, user, cardOk))
    ensures OnePurchase(Pay(s.db, o, user, cardOk, s.now))
  {
    assert OneOrderPerReservation(s.db.orders);
    hide Constraints, OnePurchase, OneOrderPerReservation;
    if PayReplyTo(s.db, o, user, cardOk, s.now) == PaymentDone {
      if s.db.orders[o].status == Unpaid {
        PendingHaveNotPaid(s.db, o);
      }
      PaymentKeepsOnePurchase(s.db, o, user, cardOk, s.now);
    }
  }

  lemma SameTablesKeepOne(db: Db, after: Db)
    requires OnePurchase(db) && after.reservations == db.reservations && after.orders == db.orders
    ensures OnePurchase(after)
  {
  }

  /** Over every careful run there is one purchase, and the buyer of a pending order has not paid for another. */
  lemma {:induction false} OnePaidPurchase(stock: map<nat, nat>, steps: seq<Step>)
    requires CarefulRun(Init(stock), steps)
    ensures var db := Run(Init(stock), steps).db; OnePurchase(db) && AtMostOnePaid(db)
    ensures var orders := Run(Init(stock), steps).db.orders;
      forall o :: 0 <= o < |orders| && orders[o].status == Unpaid ==>
        !HasPaidOrder(Run(Init(stock), steps).db, orders[o].user, orders[o].sale)
  {
    assert OneOrderPerReservation(Run(Init(stock), steps).db.orders);
    hide Next, Constraints, Careful, OneOrderPerReservation;
    if steps != [] {
      var front := steps[..|steps| - 1];
      assert forall i :: 0 <= i < |front| ==> front[..i] == steps[..i];
      OnePaidPurchase(stock, front);
      StepKeepsOne(Run(Init(stock), front), steps[|steps| - 1]);
    }
    forall o | 0 <= o < |Run(Init(stock), steps).db.orders| && Run(Init(stock), steps).db.orders[o].status == Unpaid
      ensures var db := Run(Init(stock), steps).db; !HasPaidOrder(db, db.orders[o].user, db.orders[o].sale)
    {
      PendingHaveNotPaid(Run(Init(stock), steps).db, o);
    }
  }
}
