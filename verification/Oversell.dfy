/** No oversell across the stores: live and paid units together never exceed the seeded stock. */
module Oversell {
  import opened Sums
  import opened Tables
  import opened Expiry
  import opened Protocol
  import opened CounterLedger
  import opened Purchases

  function PaidForRow(r: nat): Order -> int {
    (o: Order) => if o.reservation == r && o.status == Paid then o.quantity else 0
  }

  function PaidFor(db: Db, r: nat): int { Sum(db.orders, PaidForRow(r)) }

  /** What buyers hold of row `r`: the units paid for, or the units of a live reservation if those are more. */
  function Claim(db: Db, r: nat): int
    requires r < |db.reservations|
  {
    var row := db.reservations[r];
    if row.Live() && PaidFor(db, r) < row.quantity then row.quantity else PaidFor(db, r)
  }

  function LiveAndPaid(db: Db, sale: nat, rows: nat): int
    requires rows <= |db.reservations|
  {
    if rows == 0 then 0
    else LiveAndPaid(db, sale, rows - 1) + if db.reservations[rows - 1].sale == sale then Claim(db, rows - 1) else 0
  }

  /** No paid order is for more units than its reservation row is charged. */
  ghost predicate PaidWithin(db: Db) {
    forall o :: 0 <= o < |db.orders| && db.orders[o].status == Paid ==>
      db.orders[o].reservation < |db.reservations|
      && db.orders[o].quantity <= db.reservations[db.orders[o].reservation].quantity
  }

  function Zero(): Order -> int { (o: Order) => 0 }

  lemma {:induction false} SumOfZero(os: seq<Order>)
    ensures Sum(os, Zero()) == 0
  {
    if os != [] {
      SumOfZero(os[..|os| - 1]);
    }
  }

  lemma PaidForTheRow(db: Db, r: nat)
    requires OneOrderPerReservation(db.orders)
    ensures 0 <= PaidFor(db, r)
    ensures forall o :: 0 <= o < |db.orders| && db.orders[o].reservation == r ==>
      PaidFor(db, r) == PaidForRow(r)(db.orders[o])
    ensures !HasOrder(db, r) ==> PaidFor(db, r) == 0
  {
    SumOfZero(db.orders);
    if o :| 0 <= o < |db.orders| && db.orders[o].reservation == r {
      SumOneChange(db.orders, db.orders, Zero(), PaidForRow(r), o);
    } else {
      SumCongruent(db.orders, db.orders, Zero(), PaidForRow(r));
    }
  }

  ghost predicate ClaimsWithinCharges(db: Db) {
    forall r :: 0 <= r < |db.reservations| ==> Claim(db, r) <= db.reservations[r].quantity
  }

  /** No row's claim exceeds what the row is charged exactly when no paid order does. */
  lemma ClaimsWithinExactlyWhen(db: Db)
    requires References(db) && OneOrderPerReservation(db.orders)
    ensures ClaimsWithinCharges(db) <==> PaidWithin(db)
  {
    forall r | 0 <= r < |db.reservations|
      ensures PaidWithin(db) ==> Claim(db, r) <= db.reservations[r].quantity
    {
      PaidForTheRow(db, r);
    }
    forall o | 0 <= o < |db.orders| && db.orders[o].status == Paid
      ensures Claim(db, db.orders[o].reservation) >= db.orders[o].quantity
    {
      PaidForTheRow(db, db.orders[o].reservation);
    }
  }

  lemma {:induction false} ClaimsAtMostCharges(db: Db, sale: nat, rows: nat)
    requires ClaimsWithinCharges(db) && rows <= |db.reservations|
    ensures LiveAndPaid(db, sale, rows) <= Sum(db.reservations[..rows], RowUnits(sale))
  {
    if rows > 0 {
      ClaimsAtMostCharges(db, sale, rows - 1);
      assert db.reservations[..rows] == db.reservations[..rows - 1] + [db.reservations[rows - 1]];
      SumAppend(db.reservations[..rows - 1], db.reservations[rows - 1], RowUnits(sale));
    }
  }

  // ---------------------------------------------------------------- exactly when claims stay within charges

  /** An accepted payment of an order for more units than its row is charged. */
  predicate PaysForMore(s: State, step: Step)
    requires Constraints(s.db)
  {
    && step.PayOrder?
    && PayReplyTo(s.db, step.order, step.user, step.cardOk, s.now) == PaymentDone
    && s.db.orders[step.order].quantity > s.db.reservations[s.db.orders[step.order].reservation].quantity
  }

  /** A paid order's row is past modification. */
  ghost predicate PaidAreSettled(db: Db) {
    forall o :: 0 <= o < |db.orders| && db.orders[o].status == Paid ==>
      db.orders[o].reservation < |db.reservations| && db.reservations[db.orders[o].reservation].status != Pending
  }

  /** Rows of paid orders keep their units, and do not become pending. */
  ghost predicate SamePaidRows(db: Db, after: Db) {
    && |db.reservations| <= |after.reservations|
    && forall r :: 0 <= r < |db.reservations| && db.reservations[r].status != Pending ==>
         after.reservations[r].quantity == db.reservations[r].quantity && after.reservations[r].status != Pending
  }

  lemma SamePaidSameClaims(db: Db, after: Db)
    requires PaidAreSettled(db) && SamePaid(db, after) && SamePaidRows(db, after)
    ensures PaidAreSettled(after) && (PaidWithin(after) <==> PaidWithin(db))
  {
    forall o | 0 <= o < |db.orders| && db.orders[o].status == Paid ensures after.orders[o] == db.orders[o] {
    }
  }

  lemma CancelKeepsRows(db: Db, o: nat, user: nat)
    requires Constraints(db)
    ensures SamePaidRows(db, Cancel(db, o, user))
  {
    assert References(db);
    hide Constraints;
  }

  lemma DeliveryKeepsRows(db: Db, r: nat, writes: nat)
    requires Constraints(db)
    ensures SamePaidRows(db, Deliver(db, r, writes).0)
  {
    hide Constraints;
  }

  lemma ExpiryKeepsRows(db: Db, ids: set<nat>)
    ensures SamePaidRows(db, ExpireBulk(db, ids))
  {
    hide UnitsOf;
  }

  lemma PendingRowsKeepRows(db: Db, after: Db)
    requires PendingRowsOnly(db, after)
    ensures SamePaidRows(db, after)
  {
  }

  lemma OthersKeepRows(s: State, step: Step)
    requires Constraints(s.db) && !step.PayOrder?
    ensures SamePaidRows(s.db, Next(s, step).db)
  {
    hide Constraints, SamePaidRows, PendingRowsOnly, Pay, Cancel, Deliver, ExpireBulk, Rows;
    hide Arrived, UnitsReserved, Persisted, Compensated, Modified, Polled;
    SameRows(s.db);
    match step
    case Consume(r, writes, _) => DeliveryKeepsRows(s.db, r, writes);
    case CancelOrder(o, user) => CancelKeepsRows(s.db, o, user);
    case ExpireRows(ids, _) => ExpiryKeepsRows(s.db, Ids(ids));
    case PayOrder(_, _, _) =>
    case _ =>
      OtherStepsChangePendingRowsOnly(s, step);
      PendingRowsKeepRows(s.db, Next(s, step).db);
  }

  lemma SameRows(db: Db)
    ensures SamePaidRows(db, db)
  {
  }

  /** Whatever its status was, paying an order keeps paid orders within their rows exactly if it is within its own. */
  lemma PaidTablesKeepWithinExactlyWhen(db: Db, o: nat)
    requires Constraints(db) && PaidAreSettled(db) && o < |db.orders|
    ensures PaidAreSettled(PaidTables(db, o))
    ensures PaidWithin(PaidTables(db, o))
      <==> PaidWithin(db) && db.orders[o].quantity <= db.reservations[db.orders[o].reservation].quantity
  {
    var after := PaidTables(db, o);
    ConstraintsOf(db);
    hide Constraints;
    assert after.orders[o].status == Paid;
    assert forall p :: 0 <= p < |db.orders| && db.orders[p].status == Paid ==> after.orders[p] == db.orders[p];
    assert forall r :: 0 <= r < |db.reservations| ==> after.reservations[r].quantity == db.reservations[r].quantity;
  }

  lemma PaymentKeepsWithinExactlyWhen(s: State, o: nat, user: nat, cardOk: bool)
    requires Constraints(s.db) && PaidAreSettled(s.db)
    ensures var after := Pay(s.db, o, user, cardOk, s.now);
      PaidAreSettled(after) && (PaidWithin(after) <==> PaidWithin(s.db) && !PaysForMore(s, PayOrder(o, user, cardOk)))
  {
    hide Constraints, PaidTables, PaidWithin, PaidAreSettled;
    if PayReplyTo(s.db, o, user, cardOk, s.now) == PaymentDone {
      PaidTablesKeepWithinExactlyWhen(s.db, o);
    }
  }

  lemma StepKeepsClaimsExactlyWhen(s: State, step: Step)
    requires Constraints(s.db) && PaidAreSettled(s.db)
    ensures PaidAreSettled(Next(s, step).db)
    ensures PaidWithin(Next(s, step).db) <==> PaidWithin(s.db) && !PaysForMore(s, step)
  {
    if step.PayOrder? {
      PaymentKeepsWithinExactlyWhen(s, step.order, step.user, step.cardOk);
      hide Constraints, PaidWithin, PaidAreSettled, PaysForMore, Pay;
    } else {
      hide *;
      OnlyPaymentsPay(s, step);
      OthersKeepRows(s, step);
      SamePaidSameClaims(s.db, Next(s, step).db);
      OnlyPaymentsPayForMore(s, step);
    }
  }

  lemma OnlyPaymentsPayForMore(s: State, step: Step)
    requires Constraints(s.db) && !step.PayOrder?
    ensures !PaysForMore(s, step)
  {
  }

  ghost predicate NobodyPaysForMore(s: State, steps: seq<Step>)
    requires Constraints(s.db)
  {
    forall i :: 0 <= i < |steps| ==> !PaysForMore(Run(s, steps[..i]), steps[i])
  }

  lemma NothingPaidAtFirst(stock: map<nat, nat>)
    ensures PaidAreSettled(Init(stock).db) && PaidWithin(Init(stock).db)
  {
  }

  lemma {:induction false} PaidStayWithinExactlyWhen(stock: map<nat, nat>, steps: seq<Step>)
    ensures PaidAreSettled(Run(Init(stock), steps).db)
    ensures PaidWithin(Run(Init(stock), steps).db) <==> NobodyPaysForMore(Init(stock), steps)
  {
    hide Next, Constraints, PaysForMore, PaidWithin, PaidAreSettled;
    if steps == [] {
      NothingPaidAtFirst(stock);
    } else {
      var front := steps[..|steps| - 1];
      assert forall i :: 0 <= i < |front| ==> front[..i] == steps[..i];
      PaidStayWithinExactlyWhen(stock, front);
      StepKeepsClaimsExactlyWhen(Run(Init(stock), front), steps[|steps| - 1]);
    }
  }

  /**
   A run ends with buyers holding of every row no more units than the row is charged exactly when it
   accepted no payment of an order for more units than its row then had.
   */
  lemma ClaimsStayWithinExactlyWhen(stock: map<nat, nat>, steps: seq<Step>)
    ensures ClaimsWithinCharges(Run(Init(stock), steps).db) <==> NobodyPaysForMore(Init(stock), steps)
  {
    var db := Run(Init(stock), steps).db;
    assert References(db) && OneOrderPerReservation(db.orders);
    hide *;
    ClaimsWithinExactlyWhen(db);
    PaidStayWithinExactlyWhen(stock, steps);
  }

  /** Then the free units, the units in flight, and the live and paid units of a sale are within its stock. */
  lemma LiveAndPaidWithinStock(stock: map<nat, nat>, steps: seq<Step>, sale: nat)
    requires sale in stock && NobodyPaysForMore(Init(stock), steps)
    ensures var s := Run(Init(stock), steps);
      && 0 <= Counter(s, sale) && 0 <= InFlight(s, sale)
      && Counter(s, sale) + InFlight(s, sale) + LiveAndPaid(s.db, sale, |s.db.reservations|) <= stock[sale]
  {
    hide Next, Constraints, ClaimsWithinCharges, NobodyPaysForMore;
    var s := Run(Init(stock), steps);
    ClaimsStayWithinExactlyWhen(stock, steps);
    ClaimsAtMostCharges(s.db, sale, |s.db.reservations|);
    assert s.db.reservations[..|s.db.reservations|] == s.db.reservations;
    NoOversellAtTheCounter(stock, steps, sale);
  }

  // ---------------------------------------------------------------- exactly when orders stay within their rows

  /** No order is for more units than its reservation row is charged. */
  ghost predicate OrdersWithin(db: Db) {
    forall o :: 0 <= o < |db.orders| ==>
      db.orders[o].reservation < |db.reservations|
      && db.orders[o].quantity <= db.reservations[db.orders[o].reservation].quantity
  }

  /** The row has an order for more than `quantity` units. */
  predicate OrderedMore(db: Db, r: nat, quantity: int) {
    exists o :: 0 <= o < |db.orders| && db.orders[o].reservation == r && db.orders[o].quantity > quantity
  }

  /** A modification its guards let through that goes below what an order of the row already sells. */
  predicate LowersBelowOrder(s: State, step: Step) {
    && step.ModifyQuantity? && step.row < |s.db.reservations|
    && s.db.reservations[step.row].status == Pending && s.db.reservations[step.row].user == step.user
    && OrderedMore(s.db, step.row, step.quantity)
  }

  lemma PayAndCancelKeepWithin(db: Db, o: nat, user: nat, cardOk: bool, now: int)
    requires Constraints(db) && OrdersWithin(db)
    ensures OrdersWithin(Pay(db, o, user, cardOk, now)) && OrdersWithin(Cancel(db, o, user))
  {
    hide Constraints;
  }

  lemma DeliverKeepsWithin(db: Db, r: nat, writes: nat)
    requires Constraints(db) && OrdersWithin(db)
    ensures OrdersWithin(Deliver(db, r, writes).0)
  {
    hide Constraints;
  }

  /** Changing a pending row's quantity keeps orders within their rows exactly when no order of the row is for more. */
  lemma QuantityKeepsWithinExactlyWhen(db: Db, r: nat, quantity: Units, expiresAt: int)
    requires OrdersWithin(db) && r < |db.reservations| && db.reservations[r].status == Pending
    ensures OrdersWithin(WithQuantity(db, r, quantity, expiresAt)) <==> !OrderedMore(db, r, quantity)
  {
    var after := WithQuantity(db, r, quantity, expiresAt);
    if o :| 0 <= o < |db.orders| && db.orders[o].reservation == r && db.orders[o].quantity > quantity {
      assert after.orders[o].quantity > after.reservations[r].quantity;
    }
  }

  /** A refused increase, or a request for the same quantity, is never below an order within its row. */
  lemma ModifyStepExactlyWhen(s: State, r: nat, user: nat, quantity: Units, ttl: Units)
    requires Constraints(s.db) && OrdersWithin(s.db)
    ensures OrdersWithin(Modified(s, r, user, quantity, ttl).db)
      <==> !LowersBelowOrder(s, ModifyQuantity(r, user, quantity, ttl))
  {
    hide Constraints;
    if r < |s.db.reservations| && s.db.reservations[r].status == Pending {
      if quantity >= s.db.reservations[r].quantity {
        assert !OrderedMore(s.db, r, quantity);
      }
      QuantityKeepsWithinExactlyWhen(s.db, r, quantity, s.now + ttl);
    }
    hide OrdersWithin, OrderedMore, WithQuantity;
  }

  /** Requests and polls change no order and no row's quantity. */
  lemma OthersKeepWithin(s: State, step: Step)
    requires Constraints(s.db) && OrdersWithin(s.db) && !IsTransaction(step) && !step.ModifyQuantity?
    ensures OrdersWithin(Next(s, step).db)
  {
    hide Constraints;
  }

  lemma ExpiryKeepsWithin(db: Db, ids: set<nat>)
    requires OrdersWithin(db)
    ensures OrdersWithin(ExpireBulk(db, ids))
  {
    hide UnitsOf;
  }

  lemma StepKeepsWithinExactlyWhen(s: State, step: Step)
    requires Constraints(s.db) && OrdersWithin(s.db)
    ensures OrdersWithin(Next(s, step).db) <==> !LowersBelowOrder(s, step)
  {
    hide Constraints, OrdersWithin, OrderedMore, Pay, Cancel, Deliver, ExpireBulk;
    hide Arrived, UnitsReserved, Persisted, Compensated, Modified, Polled;
    match step
    case ModifyQuantity(r, user, quantity, ttl) => ModifyStepExactlyWhen(s, r, user, quantity, ttl);
    case Consume(r, writes, _) => DeliverKeepsWithin(s.db, r, writes);
    case PayOrder(o, user, cardOk) => PayAndCancelKeepWithin(s.db, o, user, cardOk, s.now);
    case CancelOrder(o, user) => PayAndCancelKeepWithin(s.db, o, user, false, 0);
    case ExpireRows(ids, _) => ExpiryKeepsWithin(s.db, Ids(ids));
    case _ => OthersKeepWithin(s, step);
  }
}
