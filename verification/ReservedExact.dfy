/**
 When reserved_quantity is exact. It is at most the units of held orders in every run; here is,
 transaction by transaction and over whole runs, exactly when it stays equal to them.
 */
module ReservedExact {
  import opened Sums
  import opened Tables
  import opened Expiry
  import opened Consumer
  import opened Protocol
  import opened OrderLedger

  predicate ExactFor(db: Db, sale: nat)
    requires sale in db.inventory
  {
    db.inventory[sale].reserved == Sum(db.orders, HeldUnits(db.reservations, sale))
  }

  predicate Exact(db: Db) {
    forall sale :: sale in db.inventory ==> ExactFor(db, sale)
  }

  lemma HeldAfterExpiry(db: Db, id: nat, sale: nat)
    requires References(db) && OneOrderPerReservation(db.orders) && Linked(db) && id < |db.reservations|
    ensures var after := ExpireOne(db, id); var row := db.reservations[id];
      Sum(after.orders, HeldUnits(after.reservations, sale)) ==
        Sum(db.orders, HeldUnits(db.reservations, sale))
          - if HeldRow(db, id) && sale == row.sale then row.quantity else 0
  {
    var after := ExpireOne(db, id);
    if o :| 0 <= o < |db.orders| && db.orders[o].reservation == id {
      assert after.orders == db.orders[o := after.orders[o]];
      OrderAndRowChanged(db, after, o, {}, sale);
      assert HeldRow(db, id) <==> Held(db.reservations, db.orders[o]);
    } else {
      assert after.orders == db.orders;
      SumCongruent(db.orders, after.orders, HeldUnits(db.reservations, sale), HeldUnits(after.reservations, sale));
    }
  }

  // ---------------------------------------------------------------- expiring a batch

  /** The listed rows that are held. */
  function HeldAmong(db: Db, ids: set<nat>): set<nat> {
    set id | id in ids && HeldRow(db, id)
  }

  /** A batch leaves every row outside it as held as it was. */
  lemma OthersStayHeld(db: Db, ids: set<nat>, id: nat)
    requires id !in ids
    ensures HeldRow(ExpireBulk(db, ids), id) <==> HeldRow(db, id)
  {
    hide UnitsOf;
    var after := ExpireBulk(db, ids);
    forall o | 0 <= o < |db.orders| && db.orders[o].reservation == id
      ensures Held(after.reservations, after.orders[o]) <==> Held(db.reservations, db.orders[o])
    {
    }
    if o :| 0 <= o < |db.orders| && db.orders[o].reservation == id && Held(db.reservations, db.orders[o]) {
      assert after.orders[o].reservation == id;
    }
  }

  /** Expiring a batch drops exactly the units of its held rows from the held units. */
  lemma {:induction false} HeldAfterBulk(db: Db, ids: seq<nat>, sale: nat)
    requires Constraints(db) && Linked(db) && Rows(db, ids)
    ensures var after := ExpireBulk(db, Ids(ids));
      Sum(after.orders, HeldUnits(after.reservations, sale))
        == Sum(db.orders, HeldUnits(db.reservations, sale)) - UnitsOf(db.reservations, HeldAmong(db, Ids(ids)), sale)
  {
    if ids == [] {
      BulkOfNone(db);
      assert Ids(ids) == {} && HeldAmong(db, Ids(ids)) == {};
      UnitsOfNone(db.reservations, sale);
    } else {
      hide *;
      var front, last := ids[..|ids| - 1], ids[|ids| - 1];
      LastOfBatch(db, ids);
      HeldAfterBulk(db, front, sale);
      HeldAfterExpiry(ExpireBulk(db, Ids(front)), last, sale);
      OthersStayHeld(db, Ids(front), last);
      OneMoreHeld(db, Ids(front), last, sale);
    }
  }

  /** What the last row of a batch meets once the others are expired. */
  lemma LastOfBatch(db: Db, ids: seq<nat>)
    requires Constraints(db) && Linked(db) && Rows(db, ids) && ids != []
    ensures var front, last := ids[..|ids| - 1], ids[|ids| - 1]; var mid := ExpireBulk(db, Ids(front));
      && Rows(db, front) && last !in Ids(front) && Ids(ids) == Ids(front) + {last}
      && References(mid) && OneOrderPerReservation(mid.orders) && Linked(mid)
      && last < |db.reservations| == |mid.reservations| && mid.reservations[last] == db.reservations[last]
      && db.reservations[last].sale in db.inventory
      && ExpireOne(mid, last) == ExpireBulk(db, Ids(ids))
  {
    hide *;
    var front, last := ids[..|ids| - 1], ids[|ids| - 1];
    ConstraintsOf(db);
    BatchWithoutLast(db, ids);
    LastId(ids);
    BulkKeepsConstraints(db, Ids(front));
    ExpiryKeepsLinks(db, Ids(front));
    ConstraintsOf(ExpireBulk(db, Ids(front)));
    RowOutsideBatch(db, Ids(front), last);
    OneMoreRow(db, Ids(front), last);
  }

  lemma OneMoreHeld(db: Db, ids: set<nat>, id: nat, sale: nat)
    requires id < |db.reservations| && id !in ids
    ensures UnitsOf(db.reservations, HeldAmong(db, ids + {id}), sale)
      == UnitsOf(db.reservations, HeldAmong(db, ids), sale)
         + if HeldRow(db, id) && sale == db.reservations[id].sale then db.reservations[id].quantity else 0
  {
    hide HeldRow;
    if HeldRow(db, id) {
      assert HeldAmong(db, ids + {id}) == HeldAmong(db, ids) + {id};
      UnitsOfUnion(db.reservations, db.reservations, HeldAmong(db, ids), {id}, sale);
      UnitsOfOne(db.reservations, id, sale);
    } else {
      assert HeldAmong(db, ids + {id}) == HeldAmong(db, ids);
    }
  }

  lemma HeldAmongAtMostAll(db: Db, ids: set<nat>, sale: nat)
    ensures UnitsOf(db.reservations, HeldAmong(db, ids), sale) <= UnitsOf(db.reservations, ids, sale)
  {
    hide HeldRow;
    var held := HeldAmong(db, ids);
    assert held + (ids - held) == ids;
    UnitsOfUnion(db.reservations, db.reservations, held, ids - held, sale);
  }

  /** Every unit of the batch is held, or the held ones are all that is reserved. */
  predicate TakesBackHeldUnits(db: Db, ids: set<nat>, sale: nat)
    requires sale in db.inventory
  {
    var held := UnitsOf(db.reservations, HeldAmong(db, ids), sale);
    held == UnitsOf(db.reservations, ids, sale) || held == db.inventory[sale].reserved
  }

  predicate TakesBackWhatIsHeld(db: Db, ids: set<nat>) {
    forall sale :: sale in db.inventory ==> TakesBackHeldUnits(db, ids, sale)
  }

  lemma SaleIsExactWhen(db: Db, ids: seq<nat>, sale: nat)
    requires Constraints(db) && Linked(db) && Exact(db) && Rows(db, ids) && sale in db.inventory
    ensures var after := ExpireBulk(db, Ids(ids));
      sale in after.inventory && (ExactFor(after, sale) <==> TakesBackHeldUnits(db, Ids(ids), sale))
  {
    HeldAfterBulk(db, ids, sale);
    HeldAmongAtMostAll(db, Ids(ids), sale);
    CountedUnitsAreNonNegative(ExpireBulk(db, Ids(ids)), {}, sale);
    assert ExactFor(db, sale);
    hide Constraints, Exact, UnitsOf, HeldAmong, Ids, Rows, Linked, Sum, ExpiredRows, FailedOrders;
  }

  /** A batch may take back units that were never counted, of a pending row, or no longer are, of a paid one. */
  lemma ExpiryIsExactWhen(db: Db, ids: seq<nat>)
    requires Constraints(db) && Linked(db) && Exact(db) && Rows(db, ids)
    ensures Exact(ExpireBulk(db, Ids(ids))) <==> TakesBackWhatIsHeld(db, Ids(ids))
  {
    forall sale | sale in db.inventory
      ensures sale in ExpireBulk(db, Ids(ids)).inventory
      ensures ExactFor(ExpireBulk(db, Ids(ids)), sale) <==> TakesBackHeldUnits(db, Ids(ids), sale)
    {
      hide *;
      SaleIsExactWhen(db, ids, sale);
    }
    hide Constraints, UnitsOf, ExactFor, TakesBackHeldUnits, Ids, Rows, Linked, ExpiredRows, FailedOrders;
  }

  // ---------------------------------------------------------------- paying and cancelling

  /** The order is held, or nothing is reserved. */
  predicate SettlesExactly(db: Db, o: nat)
    requires Constraints(db) && o < |db.orders|
  {
    Held(db.reservations, db.orders[o]) || db.inventory[db.orders[o].sale].reserved == 0
  }

  /** Paying or cancelling an order that is not held takes back units nobody counted. */
  lemma SettlingIsExactWhen(db: Db, after: Db, o: nat, status: OrderStatus, rowStatus: ReservationStatus, sold: int)
    requires References(db) && OneOrderPerReservation(db.orders) && Exact(db) && o < |db.orders| && status != Unpaid
    requires var order := db.orders[o]; var stock := db.inventory[order.sale];
      && after.orders == db.orders[o := order.(status := status)]
      && after.reservations ==
           db.reservations[order.reservation := db.reservations[order.reservation].(status := rowStatus)]
      && after.inventory == db.inventory[order.sale := stock.Unreserve(order.quantity).(sold := sold)]
    ensures Exact(after) <==> Held(db.reservations, db.orders[o]) || db.inventory[db.orders[o].sale].reserved == 0
  {
    var order := db.orders[o];
    forall sale | sale in db.inventory
      ensures Sum(after.orders, HeldUnits(after.reservations, sale)) == db.inventory[sale].reserved
        - if Held(db.reservations, order) && sale == order.sale then order.quantity else 0
    {
      OrderAndRowChanged(db, after, o, {}, sale);
    }
    SumNonNegative(db.orders, HeldUnits(db.reservations, order.sale));
    assert HeldUnits(db.reservations, order.sale)(order) <= db.inventory[order.sale].reserved;
    assert after.inventory[order.sale].reserved == Sum(after.orders, HeldUnits(after.reservations, order.sale))
      <==> Held(db.reservations, order) || db.inventory[order.sale].reserved == 0;
  }

  lemma PaymentIsExactWhen(db: Db, o: nat, user: nat, cardOk: bool, now: int)
    requires Constraints(db) && Exact(db) && PayReplyTo(db, o, user, cardOk, now) == PaymentDone
    ensures Exact(Pay(db, o, user, cardOk, now)) <==> SettlesExactly(db, o)
  {
    assert References(db) && OneOrderPerReservation(db.orders);
    hide Constraints;
    var order := db.orders[o];
    SettlingIsExactWhen(db, PaidTables(db, o), o, Paid, Confirmed, db.inventory[order.sale].sold + order.quantity);
  }

  lemma CancellationIsExactWhen(db: Db, o: nat, user: nat)
    requires Constraints(db) && Exact(db) && CancelReplyTo(db, o, user) == CancelDone
    ensures Exact(Cancel(db, o, user)) <==> SettlesExactly(db, o)
  {
    assert References(db) && OneOrderPerReservation(db.orders);
    hide Constraints;
    SettlingIsExactWhen(db, CancelledTables(db, o), o, Failed, Cancelled, db.inventory[db.orders[o].sale].sold);
  }

  // ---------------------------------------------------------------- delivering

  /** Confirming the row makes its units held; only the third write makes them reserved. */
  lemma HeldAfterConfirming(db: Db, r: nat, sale: nat)
    requires Constraints(db) && Fresh(db, r)
    ensures var ordered := WithOrder(db, r); var confirmed := Ordered(db, r);
      && Sum(ordered.orders, HeldUnits(ordered.reservations, sale)) == Sum(db.orders, HeldUnits(db.reservations, sale))
      && Sum(confirmed.orders, HeldUnits(confirmed.reservations, sale)) ==
           Sum(db.orders, HeldUnits(db.reservations, sale))
             + if sale == db.reservations[r].sale then db.reservations[r].quantity else 0
  {
    var ordered := WithOrder(db, r);
    OrderIsUnique(db, r);
    assert OneOrderPerReservation(ordered.orders);
    hide Constraints, Fresh;
    SumAppend(db.orders, OrderFor(db.reservations, r), HeldUnits(db.reservations, sale));
    OrderAndRowChanged(ordered, Ordered(db, r), |db.orders|, {}, sale);
  }

  /**
   A delivery acts on a fresh row only, and keeps it exact exactly when it stops before confirming
   the row, or is complete and finds room for its units.
   */
  predicate DeliversExactly(db: Db, r: nat, writes: nat)
    requires Constraints(db)
  {
    Fresh(db, r) ==> writes <= 1 || (writes >= 3 && RoomFor(db, r))
  }

  lemma DeliveryIsExactWhen(db: Db, r: nat, writes: nat)
    requires Constraints(db) && Exact(db)
    ensures Exact(Deliver(db, r, writes).0) <==> DeliversExactly(db, r, writes)
  {
    DeliveryStages(db, r, writes);
    if Fresh(db, r) && writes > 0 {
      var sale := db.reservations[r].sale;
      forall x | x in db.inventory
        ensures Sum(WithOrder(db, r).orders, HeldUnits(WithOrder(db, r).reservations, x)) == db.inventory[x].reserved
        ensures Sum(Ordered(db, r).orders, HeldUnits(Ordered(db, r).reservations, x))
          == db.inventory[x].reserved + if x == sale then db.reservations[r].quantity else 0
      {
        HeldAfterConfirming(db, r, x);
      }
      assert References(db);
      hide Constraints, Fresh, RoomFor, Deliver, HeldUnits;
      assert Ordered(db, r).inventory[sale].reserved == db.inventory[sale].reserved;
    }
  }

  /** The tables after each number of writes. */
  lemma DeliveryStages(db: Db, r: nat, writes: nat)
    requires Constraints(db)
    ensures !Fresh(db, r) || writes == 0 ==> Deliver(db, r, writes).0 == db
    ensures Fresh(db, r) ==> db.reservations[r].sale in db.inventory
    ensures Fresh(db, r) && writes == 1 ==> Deliver(db, r, writes).0 == WithOrder(db, r)
    ensures Fresh(db, r) && (writes == 2 || (writes >= 3 && !RoomFor(db, r))) ==>
      Deliver(db, r, writes).0 == Ordered(db, r)
    ensures Fresh(db, r) && writes >= 3 && RoomFor(db, r) ==>
      Deliver(db, r, writes).0 == WithReserved(Ordered(db, r), db.reservations[r].sale, db.reservations[r].quantity)
  {
    DeliveryByCases(db, r);
    if r < |db.reservations| {
      OrderIsUnique(db, r);
    }
    hide Constraints, RoomFor;
    assert writes >= 3 ==> Deliver(db, r, writes) == Deliver(db, r, 3);
  }

  // ---------------------------------------------------------------- all runs

  /** The condition of each transaction; the other steps always keep it exact. */
  predicate KeepsExact(s: State, step: Step)
    requires Constraints(s.db)
  {
    match step
    case Consume(r, writes, _) => r in s.broker ==> DeliversExactly(s.db, r, writes)
    case PayOrder(o, user, cardOk) =>
      PayReplyTo(s.db, o, user, cardOk, s.now) == PaymentDone ==> SettlesExactly(s.db, o)
    case CancelOrder(o, user) => CancelReplyTo(s.db, o, user) == CancelDone ==> SettlesExactly(s.db, o)
    case ExpireRows(ids, _) =>
      Rows(s.db, ids) && (forall i :: 0 <= i < |ids| ==> Overdue(s.db.reservations[ids[i]], s.now)) ==>
        TakesBackWhatIsHeld(s.db, Ids(ids))
    case _ => true
  }

  /** Orders and the rows behind them stay; pending rows may be added or changed. */
  lemma PendingRowsKeepExact(db: Db, after: Db)
    requires Linked(db) && PendingRowsOnly(db, after)
    ensures Exact(after) <==> Exact(db)
  {
    forall sale
      ensures Sum(after.orders, HeldUnits(after.reservations, sale)) == Sum(db.orders, HeldUnits(db.reservations, sale))
    {
      SumCongruent(db.orders, after.orders, HeldUnits(db.reservations, sale), HeldUnits(after.reservations, sale));
    }
  }

  lemma StepIsExactWhen(s: State, step: Step)
    requires Constraints(s.db) && Books(s.db) && Exact(s.db)
    ensures Exact(Next(s, step).db) <==> KeepsExact(s, step)
  {
    hide Constraints, Exact, Linked, SoldIsPaid, Bounded, DeliversExactly, SettlesExactly, TakesBackWhatIsHeld;
    hide Rows, Overdue;
    hide Pay, Cancel, Deliver, ExpireBulk, Arrived, UnitsReserved, Persisted, Compensated, Modified, Polled;
    match step
    case Consume(r, writes, _) => DeliveryIsExactWhen(s.db, r, writes);
    case PayOrder(o, user, cardOk) => PayStepIsExactWhen(s.db, o, user, cardOk, s.now);
    case CancelOrder(o, user) => CancelStepIsExactWhen(s.db, o, user);
    case ExpireRows(ids, _) =>
      if Rows(s.db, ids) {
        ExpiryIsExactWhen(s.db, ids);
      }
    case _ =>
      OtherStepsChangePendingRowsOnly(s, step);
      PendingRowsKeepExact(s.db, Next(s, step).db);
  }

  lemma PayStepIsExactWhen(db: Db, o: nat, user: nat, cardOk: bool, now: int)
    requires Constraints(db) && Exact(db)
    ensures Exact(Pay(db, o, user, cardOk, now))
      <==> (PayReplyTo(db, o, user, cardOk, now) == PaymentDone ==> SettlesExactly(db, o))
  {
    hide Constraints, Exact, SettlesExactly;
    if PayReplyTo(db, o, user, cardOk, now) == PaymentDone {
      PaymentIsExactWhen(db, o, user, cardOk, now);
    }
  }

  lemma CancelStepIsExactWhen(db: Db, o: nat, user: nat)
    requires Constraints(db) && Exact(db)
    ensures Exact(Cancel(db, o, user)) <==> (CancelReplyTo(db, o, user) == CancelDone ==> SettlesExactly(db, o))
  {
    hide Constraints, Exact, SettlesExactly;
    if CancelReplyTo(db, o, user) == CancelDone {
      CancellationIsExactWhen(db, o, user);
    }
  }

  ghost predicate ExactThroughout(s: State, steps: seq<Step>)
    requires Constraints(s.db)
  {
    forall i :: 0 <= i <= |steps| ==> Exact(Run(s, steps[..i]).db)
  }

  ghost predicate EachKeepsExact(s: State, steps: seq<Step>)
    requires Constraints(s.db)
  {
    forall i :: 0 <= i < |steps| ==> KeepsExact(Run(s, steps[..i]), steps[i])
  }

  lemma OneMoreStep(s: State, steps: seq<Step>)
    requires Constraints(s.db) && steps != []
    ensures var front, last := steps[..|steps| - 1], steps[|steps| - 1];
      && (ExactThroughout(s, steps) <==> ExactThroughout(s, front) && Exact(Run(s, steps).db))
      && (EachKeepsExact(s, steps) <==> EachKeepsExact(s, front) && KeepsExact(Run(s, front), last))
      && (ExactThroughout(s, front) ==> Exact(Run(s, front).db))
      && Run(s, steps) == Next(Run(s, front), last)
  {
    hide Next, Constraints, Exact, KeepsExact;
    var front := steps[..|steps| - 1];
    assert forall i :: 0 <= i < |steps| ==> front[..i] == steps[..i];
    assert steps[..|steps|] == steps;
    hide Run;
  }

  /**
   reserved_quantity is exact throughout a run exactly when every transaction of the run meets its
   condition.
   */
  lemma {:induction false} ReservedIsExactExactlyWhen(stock: map<nat, nat>, steps: seq<Step>)
    ensures ExactThroughout(Init(stock), steps) <==> EachKeepsExact(Init(stock), steps)
  {
    hide Next, Constraints, KeepsExact;
    if steps == [] {
      assert Exact(Init(stock).db) && steps[..0] == [];
    } else {
      hide *;
      var front := steps[..|steps| - 1];
      ReservedIsExactExactlyWhen(stock, front);
      OneMoreStep(Init(stock), steps);
      BooksOverRuns(stock, front);
      if ExactThroughout(Init(stock), front) {
        StepIsExactWhen(Run(Init(stock), front), steps[|steps| - 1]);
      }
    }
  }
}
