/** The PostgreSQL ledger: sold and reserved quantities against the orders, over all runs. */
module OrderLedger {
  import opened Sums
  import opened Tables
  import opened Expiry
  import opened Protocol

  function PaidUnits(sale: nat): Order -> int {
    (o: Order) => if o.sale == sale && o.status == Paid then o.quantity else 0
  }

  function UnpaidUnits(sale: nat): Order -> int {
    (o: Order) => if o.sale == sale && o.status == Unpaid then o.quantity else 0
  }

  /** An unpaid order whose reservation the consumer has confirmed: the only kind it has counted as reserved. */
  predicate Held(rs: seq<Reservation>, o: Order) {
    o.status == Unpaid && o.reservation < |rs| && rs[o.reservation].status == Confirmed
  }

  /** The row is confirmed and its order unpaid: the consumer has counted its units, and nobody has taken them back. */
  predicate HeldRow(db: Db, id: nat) {
    exists o :: 0 <= o < |db.orders| && db.orders[o].reservation == id && Held(db.reservations, db.orders[o])
  }

  /** Held orders, except those of the reservations in `awaiting`, whose units are still to be counted. */
  function CountedUnits(rs: seq<Reservation>, awaiting: set<nat>, sale: nat): Order -> int {
    (o: Order) => if o.sale == sale && Held(rs, o) && o.reservation !in awaiting then o.quantity else 0
  }

  function HeldUnits(rs: seq<Reservation>, sale: nat): Order -> int {
    CountedUnits(rs, {}, sale)
  }

  /** An order belongs to its reservation's user and sale. */
  ghost predicate Owned(db: Db) {
    forall o :: 0 <= o < |db.orders| ==>
      var order := db.orders[o];
      && order.reservation < |db.reservations|
      && order.user == db.reservations[order.reservation].user
      && order.sale == db.reservations[order.reservation].sale
  }

  /** And while it is held it has its quantity. */
  ghost predicate Linked(db: Db) {
    Owned(db) && forall o :: 0 <= o < |db.orders| && Held(db.reservations, db.orders[o]) ==>
      db.orders[o].quantity == db.reservations[db.orders[o].reservation].quantity
  }

  /** Units counted as sold that no paid order accounts for. */
  function Drift(db: Db, sale: nat): int
    requires sale in db.inventory
  {
    db.inventory[sale].sold - Sum(db.orders, PaidUnits(sale))
  }

  ghost predicate SoldIsPaid(db: Db) {
    forall sale :: sale in db.inventory ==> Drift(db, sale) == 0
  }

  ghost predicate SameDrift(db: Db, after: Db) {
    && after.inventory.Keys == db.inventory.Keys
    && forall sale :: sale in db.inventory ==> Drift(after, sale) == Drift(db, sale)
  }

  ghost predicate Bounded(db: Db, awaiting: set<nat>) {
    forall sale :: sale in db.inventory ==>
      db.inventory[sale].reserved <= Sum(db.orders, CountedUnits(db.reservations, awaiting, sale))
  }

  ghost predicate Books(db: Db) {
    Linked(db) && SoldIsPaid(db) && Bounded(db, {})
  }

  // ---------------------------------------------------------------- one transaction

  /** Changing one order together with its reservation row moves no other order's units. */
  lemma OrderAndRowChanged(db: Db, after: Db, o: nat, awaiting: set<nat>, sale: nat)
    requires OneOrderPerReservation(db.orders) && o < |db.orders| == |after.orders|
    requires db.orders[o].reservation < |db.reservations| == |after.reservations|
    requires after.orders == db.orders[o := after.orders[o]] && after.orders[o].reservation == db.orders[o].reservation
    requires after.reservations ==
      db.reservations[db.orders[o].reservation := after.reservations[db.orders[o].reservation]]
    ensures Sum(after.orders, PaidUnits(sale))
      == Sum(db.orders, PaidUnits(sale)) - PaidUnits(sale)(db.orders[o]) + PaidUnits(sale)(after.orders[o])
    ensures var before := CountedUnits(db.reservations, awaiting, sale);
      var now := CountedUnits(after.reservations, awaiting, sale);
      Sum(after.orders, now) == Sum(db.orders, before) - before(db.orders[o]) + now(after.orders[o])
  {
    var before, now := CountedUnits(db.reservations, awaiting, sale), CountedUnits(after.reservations, awaiting, sale);
    SumOneChange(db.orders, after.orders, PaidUnits(sale), PaidUnits(sale), o);
    SumOneChange(db.orders, after.orders, before, now, o);
  }

  lemma CountedUnitsAreNonNegative(db: Db, awaiting: set<nat>, sale: nat)
    ensures 0 <= Sum(db.orders, CountedUnits(db.reservations, awaiting, sale))
  {
    SumNonNegative(db.orders, CountedUnits(db.reservations, awaiting, sale));
  }

  /** Sold units drift exactly when the order was paid already. */
  ghost predicate DriftsIfPaid(db: Db, after: Db, o: nat)
    requires o < |db.orders|
  {
    && after.inventory.Keys == db.inventory.Keys
    && forall sale :: sale in db.inventory ==>
         Drift(after, sale) == Drift(db, sale)
           + if sale == db.orders[o].sale && db.orders[o].status == Paid then db.orders[o].quantity else 0
  }

  lemma PaidTablesKeepAccounts(db: Db, awaiting: set<nat>, o: nat)
    requires Constraints(db) && o < |db.orders|
    ensures DriftsIfPaid(db, PaidTables(db, o), o)
    ensures Bounded(db, awaiting) ==> Bounded(PaidTables(db, o), awaiting)
  {
    var after := PaidTables(db, o);
    ConstraintsOf(db);
    hide Constraints;
    forall sale | sale in db.inventory
      ensures Drift(after, sale) == Drift(db, sale)
        + if sale == db.orders[o].sale && db.orders[o].status == Paid then db.orders[o].quantity else 0
      ensures Bounded(db, awaiting) ==>
        after.inventory[sale].reserved <= Sum(after.orders, CountedUnits(after.reservations, awaiting, sale))
    {
      OrderAndRowChanged(db, after, o, awaiting, sale);
      CountedUnitsAreNonNegative(after, awaiting, sale);
    }
  }

  lemma CancelledTablesKeepAccounts(db: Db, awaiting: set<nat>, o: nat)
    requires Constraints(db) && o < |db.orders|
    ensures DriftsIfPaid(db, CancelledTables(db, o), o)
    ensures Bounded(db, awaiting) ==> Bounded(CancelledTables(db, o), awaiting)
  {
    var after := CancelledTables(db, o);
    ConstraintsOf(db);
    hide Constraints;
    forall sale | sale in db.inventory
      ensures Drift(after, sale) == Drift(db, sale)
        + if sale == db.orders[o].sale && db.orders[o].status == Paid then db.orders[o].quantity else 0
      ensures Bounded(db, awaiting) ==>
        after.inventory[sale].reserved <= Sum(after.orders, CountedUnits(after.reservations, awaiting, sale))
    {
      OrderAndRowChanged(db, after, o, awaiting, sale);
      CountedUnitsAreNonNegative(after, awaiting, sale);
    }
  }

  lemma PayKeepsAccounts(db: Db, awaiting: set<nat>, o: nat, user: nat, cardOk: bool, now: int)
    requires Constraints(db)
    ensures SameDrift(db, Pay(db, o, user, cardOk, now))
    ensures Bounded(db, awaiting) ==> Bounded(Pay(db, o, user, cardOk, now), awaiting)
  {
    hide Constraints, PaidTables, Bounded, Drift;
    if PayReplyTo(db, o, user, cardOk, now) == PaymentDone {
      PaidTablesKeepAccounts(db, awaiting, o);
    }
  }

  lemma CancelKeepsAccounts(db: Db, awaiting: set<nat>, o: nat, user: nat)
    requires Constraints(db)
    ensures SameDrift(db, Cancel(db, o, user))
    ensures Bounded(db, awaiting) ==> Bounded(Cancel(db, o, user), awaiting)
  {
    hide Constraints, CancelledTables, Bounded, Drift;
    if CancelReplyTo(db, o, user) == CancelDone {
      CancelledTablesKeepAccounts(db, awaiting, o);
    }
  }

  lemma ExpiryKeepsDrift(db: Db, ids: set<nat>)
    ensures SameDrift(db, ExpireBulk(db, ids))
  {
    hide UnitsOf;
    var after := ExpireBulk(db, ids);
    forall sale ensures Sum(after.orders, PaidUnits(sale)) == Sum(db.orders, PaidUnits(sale)) {
      SumCongruent(db.orders, after.orders, PaidUnits(sale), PaidUnits(sale));
    }
  }

  lemma SameDriftSameSold(db: Db, after: Db)
    requires SameDrift(db, after) && SoldIsPaid(db)
    ensures SoldIsPaid(after)
  {
  }

  /** No held order of the listed rows is for more units than its row. */
  predicate HeldWithin(db: Db, ids: set<nat>) {
    forall o :: 0 <= o < |db.orders| && db.orders[o].reservation in ids && Held(db.reservations, db.orders[o]) ==>
      db.orders[o].quantity <= db.reservations[db.orders[o].reservation].quantity
  }

  lemma ExpireOneSums(db: Db, id: nat, awaiting: set<nat>, sale: nat)
    requires References(db) && OneOrderPerReservation(db.orders) && Owned(db)
    requires id < |db.reservations| && HeldWithin(db, {id})
    ensures var after := ExpireOne(db, id); var row := db.reservations[id];
      Sum(after.orders, CountedUnits(after.reservations, awaiting, sale))
        >= Sum(db.orders, CountedUnits(db.reservations, awaiting, sale)) - if sale == row.sale then row.quantity else 0
  {
    var after := ExpireOne(db, id);
    if o :| 0 <= o < |db.orders| && db.orders[o].reservation == id {
      assert after.orders == db.orders[o := after.orders[o]];
      OrderAndRowChanged(db, after, o, awaiting, sale);
    } else {
      assert after.orders == db.orders;
      SumCongruent(db.orders, after.orders,
                   CountedUnits(db.reservations, awaiting, sale), CountedUnits(after.reservations, awaiting, sale));
    }
  }

  lemma ExpireOneKeepsBound(db: Db, awaiting: set<nat>, id: nat)
    requires References(db) && OneOrderPerReservation(db.orders) && Owned(db) && Bounded(db, awaiting)
    requires id < |db.reservations| && HeldWithin(db, {id})
    ensures Bounded(ExpireOne(db, id), awaiting)
  {
    var after := ExpireOne(db, id);
    forall sale | sale in db.inventory
      ensures after.inventory[sale].reserved <= Sum(after.orders, CountedUnits(after.reservations, awaiting, sale))
    {
      ExpireOneSums(db, id, awaiting, sale);
      CountedUnitsAreNonNegative(after, awaiting, sale);
    }
  }

  lemma BulkKeepsOwned(db: Db, ids: set<nat>)
    requires Owned(db)
    ensures Owned(ExpireBulk(db, ids))
  {
    hide UnitsOf;
  }

  lemma HeldWithinRest(db: Db, ids: set<nat>, id: nat)
    requires HeldWithin(db, ids + {id}) && id !in ids && Owned(db)
    ensures HeldWithin(db, ids) && HeldWithin(ExpireBulk(db, ids), {id})
  {
    hide UnitsOf;
  }

  lemma {:induction false} ExpiryKeepsBound(db: Db, awaiting: set<nat>, ids: seq<nat>)
    requires Constraints(db) && Owned(db) && Bounded(db, awaiting) && Rows(db, ids) && HeldWithin(db, Ids(ids))
    ensures Bounded(ExpireBulk(db, Ids(ids)), awaiting)
  {
    if ids == [] {
      BulkOfNone(db);
      assert Ids(ids) == {};
    } else {
      hide *;
      var front, last := ids[..|ids| - 1], ids[|ids| - 1];
      ConstraintsOf(db);
      BatchWithoutLast(db, ids);
      LastId(ids);
      HeldWithinRest(db, Ids(front), last);
      ExpiryKeepsBound(db, awaiting, front);
      BulkKeepsConstraints(db, Ids(front));
      BulkKeepsOwned(db, Ids(front));
      ConstraintsOf(ExpireBulk(db, Ids(front)));
      RowOutsideBatch(db, Ids(front), last);
      OneMoreRow(db, Ids(front), last);
      ExpireOneKeepsBound(ExpireBulk(db, Ids(front)), awaiting, last);
    }
  }

  /** Confirmed rows and all orders stay as they are. */
  lemma PendingRowsKeepAccounts(db: Db, after: Db, awaiting: set<nat>)
    requires References(db) && PendingRowsOnly(db, after)
    ensures SameDrift(db, after)
    ensures Bounded(db, awaiting) ==> Bounded(after, awaiting)
  {
    forall sale
      ensures Sum(after.orders, CountedUnits(after.reservations, awaiting, sale))
           == Sum(db.orders, CountedUnits(db.reservations, awaiting, sale))
    {
      SumCongruent(db.orders, after.orders,
                   CountedUnits(db.reservations, awaiting, sale), CountedUnits(after.reservations, awaiting, sale));
    }
  }

  // The consumer's writes, one by one.

  lemma NewOrderKeepsAccounts(db: Db, awaiting: set<nat>, order: Order)
    requires order.status == Unpaid
    ensures var after := db.(orders := db.orders + [order]);
      && SameDrift(db, after)
      && (Bounded(db, awaiting) ==> Bounded(after, awaiting))
  {
    var after := db.(orders := db.orders + [order]);
    forall x
      ensures Sum(after.orders, PaidUnits(x)) == Sum(db.orders, PaidUnits(x))
      ensures Sum(after.orders, CountedUnits(after.reservations, awaiting, x))
        >= Sum(db.orders, CountedUnits(db.reservations, awaiting, x))
    {
      SumAppend(db.orders, order, PaidUnits(x));
      SumAppend(db.orders, order, CountedUnits(db.reservations, awaiting, x));
    }
  }

  /** Confirming makes room for the reserved quantity the third write is about to add. */
  lemma ConfirmingCounts(db: Db, awaiting: set<nat>, o: nat)
    requires OneOrderPerReservation(db.orders) && o < |db.orders| && db.orders[o].reservation < |db.reservations|
    requires db.orders[o].status == Unpaid && db.reservations[db.orders[o].reservation].status == Pending
    requires Bounded(db, awaiting) && db.orders[o].reservation !in awaiting
    ensures var after := WithConfirmed(db, db.orders[o].reservation); var sale := db.orders[o].sale;
      && Bounded(after, awaiting)
      && var counted := Sum(after.orders, CountedUnits(after.reservations, awaiting, sale));
         sale in db.inventory ==> db.inventory[sale].reserved + db.orders[o].quantity <= counted
  {
    var after := WithConfirmed(db, db.orders[o].reservation);
    forall x | x in db.inventory
      ensures Sum(after.orders, CountedUnits(after.reservations, awaiting, x))
        == Sum(db.orders, CountedUnits(db.reservations, awaiting, x))
           + if x == db.orders[o].sale then db.orders[o].quantity else 0
    {
      OrderAndRowChanged(db, after, o, awaiting, x);
    }
  }

  lemma DeliverKeepsDrift(db: Db, r: nat, writes: nat)
    requires Constraints(db)
    ensures SameDrift(db, Deliver(db, r, writes).0)
  {
    hide Constraints;
    if r < |db.reservations| {
      NewOrderKeepsAccounts(db, {}, OrderFor(db.reservations, r));
    }
    hide Sum;
  }

  lemma DeliverKeepsBound(db: Db, awaiting: set<nat>, r: nat, writes: nat)
    requires Constraints(db) && Bounded(db, awaiting)
    requires r < |db.reservations| && db.reservations[r].status == Pending ==> r !in awaiting
    ensures Bounded(Deliver(db, r, writes).0, awaiting)
  {
    if r < |db.reservations| && db.reservations[r].status == Pending {
      var ordered := WithOrder(db, r);
      NewOrderKeepsAccounts(db, awaiting, OrderFor(db.reservations, r));
      if Constraints(ordered) {
        assert OneOrderPerReservation(ordered.orders);
        hide Constraints;
        ConfirmingCounts(ordered, awaiting, |db.orders|);
      }
    }
  }

  // ---------------------------------------------------------------- the links

  lemma PayAndCancelKeepLinks(db: Db, o: nat, user: nat, cardOk: bool, now: int)
    requires Constraints(db)
    ensures Owned(db) ==> Owned(Pay(db, o, user, cardOk, now)) && Owned(Cancel(db, o, user))
    ensures Linked(db) ==> Linked(Pay(db, o, user, cardOk, now)) && Linked(Cancel(db, o, user))
  {
    assert References(db) && OneOrderPerReservation(db.orders);
    hide Constraints;
  }

  lemma DeliverKeepsLinks(db: Db, r: nat, writes: nat)
    requires Constraints(db)
    ensures Owned(db) ==> Owned(Deliver(db, r, writes).0)
    ensures Linked(db) ==> Linked(Deliver(db, r, writes).0)
  {
    if r < |db.reservations| && Constraints(WithOrder(db, r)) {
      var orders := WithOrder(db, r).orders;
      assert OneOrderPerReservation(orders);
      forall o | 0 <= o < |db.orders| ensures db.orders[o].reservation != r {
        assert orders[o].reservation != orders[|db.orders|].reservation;
      }
    }
    hide Constraints, OneOrderPerReservation;
  }

  lemma ExpiryKeepsLinks(db: Db, ids: set<nat>)
    requires Linked(db)
    ensures Linked(ExpireBulk(db, ids))
  {
    hide UnitsOf;
  }

  /** Rows keep their user and sale. */
  ghost predicate SameOwners(db: Db, after: Db) {
    && |db.reservations| <= |after.reservations|
    && forall r :: 0 <= r < |db.reservations| ==>
         after.reservations[r].user == db.reservations[r].user && after.reservations[r].sale == db.reservations[r].sale
  }

  lemma OtherStepsKeepOwners(s: State, step: Step)
    requires Constraints(s.db) && !IsTransaction(step)
    ensures SameOwners(s.db, Next(s, step).db)
  {
    hide Constraints;
  }

  lemma SameOwnersKeepLinks(db: Db, after: Db)
    requires Owned(db) && PendingRowsOnly(db, after) && SameOwners(db, after)
    ensures Owned(after)
    ensures Linked(db) ==> Linked(after)
  {
  }

  // ---------------------------------------------------------------- the books

  lemma PayKeepsBooks(db: Db, o: nat, user: nat, cardOk: bool, now: int)
    requires Constraints(db) && Books(db)
    ensures Books(Pay(db, o, user, cardOk, now))
  {
    PayAndCancelKeepLinks(db, o, user, cardOk, now);
    PayKeepsAccounts(db, {}, o, user, cardOk, now);
    SameDriftSameSold(db, Pay(db, o, user, cardOk, now));
    hide Constraints, Linked, SoldIsPaid, Bounded, Pay;
  }

  lemma CancelKeepsBooks(db: Db, o: nat, user: nat)
    requires Constraints(db) && Books(db)
    ensures Books(Cancel(db, o, user))
  {
    PayAndCancelKeepLinks(db, o, user, true, 0);
    CancelKeepsAccounts(db, {}, o, user);
    SameDriftSameSold(db, Cancel(db, o, user));
    hide Constraints, Linked, SoldIsPaid, Bounded, Cancel;
  }

  lemma DeliverKeepsBooks(db: Db, r: nat, writes: nat)
    requires Constraints(db) && Books(db)
    ensures Books(Deliver(db, r, writes).0)
  {
    DeliverKeepsLinks(db, r, writes);
    DeliverKeepsDrift(db, r, writes);
    SameDriftSameSold(db, Deliver(db, r, writes).0);
    DeliverKeepsBound(db, {}, r, writes);
    hide Constraints, Linked, SoldIsPaid, Bounded, Deliver;
  }

  lemma ExpiryKeepsBooks(db: Db, ids: seq<nat>)
    requires Constraints(db) && Books(db) && Rows(db, ids)
    ensures Books(ExpireBulk(db, Ids(ids)))
  {
    ExpiryKeepsLinks(db, Ids(ids));
    ExpiryKeepsDrift(db, Ids(ids));
    SameDriftSameSold(db, ExpireBulk(db, Ids(ids)));
    ExpiryKeepsBound(db, {}, ids);
    hide Constraints, SoldIsPaid, Bounded, ExpireBulk;
  }

  // ---------------------------------------------------------------- all runs

  lemma StepKeepsDrift(s: State, step: Step)
    requires Constraints(s.db)
    ensures SameDrift(s.db, Next(s, step).db)
  {
    ConstraintsOf(s.db);
    hide Constraints, References, SameDrift, PendingRowsOnly, Pay, Cancel, Deliver, ExpireBulk, Rows;
    hide Arrived, UnitsReserved, Persisted, Compensated, Modified, Polled;
    NoDrift(s.db);
    match step
    case Consume(r, writes, _) => DeliverKeepsDrift(s.db, r, writes);
    case PayOrder(o, user, cardOk) => PayKeepsAccounts(s.db, {}, o, user, cardOk, s.now);
    case CancelOrder(o, user) => CancelKeepsAccounts(s.db, {}, o, user);
    case ExpireRows(ids, _) => ExpiryKeepsDrift(s.db, Ids(ids));
    case _ =>
      OtherStepsChangePendingRowsOnly(s, step);
      PendingRowsKeepAccounts(s.db, Next(s, step).db, {});
  }

  lemma NoDrift(db: Db)
    ensures SameDrift(db, db)
  {
  }

  lemma StepKeepsBooks(s: State, step: Step)
    requires Constraints(s.db) && Books(s.db)
    ensures Books(Next(s, step).db)
  {
    hide Constraints, Books, Pay, Cancel, Deliver, ExpireBulk, Rows;
    hide Arrived, UnitsReserved, Persisted, Compensated, Modified, Polled;
    match step
    case Consume(r, writes, _) => DeliverKeepsBooks(s.db, r, writes);
    case PayOrder(o, user, cardOk) => PayKeepsBooks(s.db, o, user, cardOk, s.now);
    case CancelOrder(o, user) => CancelKeepsBooks(s.db, o, user);
    case ExpireRows(ids, _) =>
      if Rows(s.db, ids) {
        ExpiryKeepsBooks(s.db, ids);
      }
    case _ =>
      OtherStepsChangePendingRowsOnly(s, step);
      OtherStepsKeepOwners(s, step);
      PendingRowsKeepBooks(s.db, Next(s, step).db);
  }

  lemma PendingRowsKeepBooks(db: Db, after: Db)
    requires Constraints(db) && Books(db) && PendingRowsOnly(db, after) && SameOwners(db, after)
    ensures Books(after)
  {
    ConstraintsOf(db);
    PendingRowsKeepAccounts(db, after, {});
    SameDriftSameSold(db, after);
    SameOwnersKeepLinks(db, after);
    hide Constraints, References, SoldIsPaid, Bounded, PendingRowsOnly, SameOwners;
  }

  lemma {:induction false} BooksOverRuns(stock: map<nat, nat>, steps: seq<Step>)
    ensures Books(Run(Init(stock), steps).db)
  {
    hide Next, Constraints;
    if steps != [] {
      BooksOverRuns(stock, steps[..|steps| - 1]);
      StepKeepsBooks(Run(Init(stock), steps[..|steps| - 1]), steps[|steps| - 1]);
    }
  }

  ghost predicate Totals(db: Db, stock: map<nat, nat>) {
    db.inventory.Keys == stock.Keys && forall sale :: sale in stock ==> db.inventory[sale].total == stock[sale]
  }

  lemma TransactionsKeepTotals(db: Db, stock: map<nat, nat>, id: nat, user: nat, cardOk: bool, now: int, writes: nat)
    requires Constraints(db) && Totals(db, stock)
    ensures Totals(Pay(db, id, user, cardOk, now), stock)
    ensures Totals(Cancel(db, id, user), stock)
    ensures Totals(Deliver(db, id, writes).0, stock)
  {
    assert References(db);
    hide Constraints;
  }

  lemma StepKeepsTotals(s: State, step: Step, stock: map<nat, nat>)
    requires Constraints(s.db) && Totals(s.db, stock)
    ensures Totals(Next(s, step).db, stock)
  {
    hide Constraints, Pay, Cancel, Deliver, Rows;
    match step
    case Consume(r, writes, _) => TransactionsKeepTotals(s.db, stock, r, 0, false, 0, writes);
    case PayOrder(o, user, cardOk) => TransactionsKeepTotals(s.db, stock, o, user, cardOk, s.now, 0);
    case CancelOrder(o, user) => TransactionsKeepTotals(s.db, stock, o, user, false, 0, 0);
    case _ =>
  }

  lemma {:induction false} TotalsOverRuns(stock: map<nat, nat>, steps: seq<Step>)
    ensures Totals(Run(Init(stock), steps).db, stock)
  {
    hide Next, Constraints;
    if steps != [] {
      TotalsOverRuns(stock, steps[..|steps| - 1]);
      StepKeepsTotals(Run(Init(stock), steps[..|steps| - 1]), steps[|steps| - 1], stock);
    }
  }

  /**
   In every reachable state sold_quantity is exactly the units of paid orders, reserved_quantity
   is at most the units of unpaid orders, and paid units never exceed the seeded stock.
   */
  lemma SoldLedger(stock: map<nat, nat>, steps: seq<Step>, sale: nat)
    requires sale in stock
    ensures var db := Run(Init(stock), steps).db;
      && sale in db.inventory
      && db.inventory[sale].sold == Sum(db.orders, PaidUnits(sale))
      && 0 <= db.inventory[sale].reserved <= Sum(db.orders, UnpaidUnits(sale))
      && Sum(db.orders, PaidUnits(sale)) <= db.inventory[sale].total == stock[sale]
  {
    BooksOverRuns(stock, steps);
    TotalsOverRuns(stock, steps);
    var s := Run(Init(stock), steps);
    SumAtMost(s.db.orders, HeldUnits(s.db.reservations, sale), UnpaidUnits(sale));
    assert StockChecks(s.db.inventory);
    hide Next, Constraints;
    assert s.db.inventory[sale].Check();
  }
}
