/**
 The order ledger between reads and writes: sold_quantity never falls below the paid units and is equal
 to them exactly when no settlement commits on an order already paid, and reserved_quantity stays within
 the counted units exactly when no move overcounts.
 */
module BetweenWrites {
  import opened Sums
  import opened Tables
  import opened Expiry
  import opened Protocol
  import opened OrderLedger
  import opened Lifecycle
  import opened Interleaving

  // ---------------------------------------------------------------- what workers carry

  predicate Writing(w: Worker) {
    w.stage == Inserted || w.stage == Marked
  }

  /** The same order, whatever has become of its status. */
  predicate Matches(o: Order, w: Worker) {
    o.reservation == w.order.reservation && o.sale == w.order.sale && o.quantity == w.order.quantity
  }

  predicate HasMatch(db: Db, w: Worker) {
    exists o :: 0 <= o < |db.orders| && Matches(db.orders[o], w)
  }

  /** A worker's order is in the table once inserted, is not held before the row is marked, and marks it for good. */
  predicate Fits(db: Db, w: Worker) {
    && w.order.status == Unpaid && w.order.reservation < |db.reservations|
    && w.order.user == db.reservations[w.order.reservation].user
    && w.order.sale == db.reservations[w.order.reservation].sale
    && (Writing(w) ==> HasMatch(db, w))
    && (w.stage == Inserted ==> !HeldRow(db, w.order.reservation))
    && (w.stage == Marked ==> db.reservations[w.order.reservation].status != Pending)
  }

  ghost predicate AllFit(sys: System) {
    && Owned(sys.state.db)
    && (forall w :: 0 <= w < |sys.workers| ==> Fits(sys.state.db, sys.workers[w]))
    && (forall v, w :: 0 <= v < w < |sys.workers| && Writing(sys.workers[v]) && Writing(sys.workers[w]) ==>
          sys.workers[v].order.reservation != sys.workers[w].order.reservation)
  }

  /** Settled rows stay settled, orders stay, and none but that of row `but` becomes held. */
  ghost predicate Progress(db: Db, after: Db, but: set<nat>) {
    && |db.reservations| <= |after.reservations| && |db.orders| <= |after.orders|
    && (forall r :: 0 <= r < |db.reservations| ==>
          && after.reservations[r].user == db.reservations[r].user
          && after.reservations[r].sale == db.reservations[r].sale
          && (db.reservations[r].status != Pending ==> after.reservations[r].status != Pending))
    && (forall o :: 0 <= o < |db.orders| ==>
          && after.orders[o].reservation == db.orders[o].reservation
          && after.orders[o].sale == db.orders[o].sale && after.orders[o].quantity == db.orders[o].quantity
          && (Held(after.reservations, after.orders[o]) ==>
                Held(db.reservations, db.orders[o]) || db.orders[o].reservation in but))
  }

  lemma StillFits(db: Db, after: Db, but: set<nat>, w: Worker)
    requires Fits(db, w) && Progress(db, after, but) && OneOrderPerReservation(after.orders)
    requires w.stage == Inserted ==> w.order.reservation !in but
    ensures Fits(after, w)
  {
    if Writing(w) {
      var o :| 0 <= o < |db.orders| && Matches(db.orders[o], w);
      assert Matches(after.orders[o], w);
      if p :| 0 <= p < |after.orders| && after.orders[p].reservation == w.order.reservation
              && Held(after.reservations, after.orders[p]) {
        assert p == o;
      }
    }
  }

  lemma SettlingProgresses(db: Db, o: nat, purpose: Purpose)
    requires Constraints(db) && o < |db.orders|
    ensures Progress(db, SettledTables(db, o, purpose), {})
    ensures Owned(db) ==> Owned(SettledTables(db, o, purpose))
  {
    ConstraintsOf(db);
    hide Constraints, StockChecks;
  }

  lemma TransactionsProgress(db: Db, o: nat, user: nat, cardOk: bool, now: int)
    requires Constraints(db)
    ensures Progress(db, Pay(db, o, user, cardOk, now), {})
    ensures Progress(db, Cancel(db, o, user), {})
  {
    SameProgresses(db);
    if o < |db.orders| {
      SettlingProgresses(db, o, Paying);
      SettlingProgresses(db, o, Cancelling);
    }
    hide Constraints, Progress, PaidTables, CancelledTables;
  }

  lemma ExpiryProgresses(db: Db, ids: set<nat>)
    ensures Progress(db, ExpireBulk(db, ids), {})
  {
    hide UnitsOf;
  }

  lemma DeliveryProgresses(db: Db, r: nat, writes: nat)
    requires Constraints(db)
    ensures Progress(db, Deliver(db, r, writes).0, {})
  {
    if r < |db.reservations| && Constraints(WithOrder(db, r)) {
      var orders := WithOrder(db, r).orders;
      assert OneOrderPerReservation(orders);
      forall o | 0 <= o < |db.orders| ensures db.orders[o].reservation != r {
        assert orders[o].reservation != orders[|db.orders|].reservation;
      }
    }
    hide Constraints, OneOrderPerReservation;
  }

  lemma PendingRowsProgress(db: Db, after: Db)
    requires References(db) && PendingRowsOnly(db, after) && SameOwners(db, after)
    ensures Progress(db, after, {})
  {
  }

  lemma NextProgresses(s: State, step: Step)
    requires Constraints(s.db)
    ensures Progress(s.db, Next(s, step).db, {})
  {
    ConstraintsOf(s.db);
    hide Constraints, References, Progress, PendingRowsOnly, SameOwners, Pay, Cancel, Deliver, ExpireBulk, Rows;
    hide Arrived, UnitsReserved, Persisted, Compensated, Modified, Polled;
    SameProgresses(s.db);
    match step
    case Consume(r, writes, _) => DeliveryProgresses(s.db, r, writes);
    case PayOrder(o, user, cardOk) => TransactionsProgress(s.db, o, user, cardOk, s.now);
    case CancelOrder(o, user) => TransactionsProgress(s.db, o, user, true, 0);
    case ExpireRows(ids, _) => ExpiryProgresses(s.db, Ids(ids));
    case _ =>
      OtherStepsChangePendingRowsOnly(s, step);
      OtherStepsKeepOwners(s, step);
      PendingRowsProgress(s.db, Next(s, step).db);
  }

  lemma NextKeepsOwned(s: State, step: Step)
    requires Constraints(s.db) && Owned(s.db)
    ensures Owned(Next(s, step).db)
  {
    hide Constraints, Owned, PendingRowsOnly, SameOwners, Pay, Cancel, Deliver, ExpireBulk, Rows;
    hide Arrived, UnitsReserved, Persisted, Compensated, Modified, Polled;
    match step
    case Consume(r, writes, _) => DeliverKeepsLinks(s.db, r, writes);
    case PayOrder(o, user, cardOk) => PayAndCancelKeepLinks(s.db, o, user, cardOk, s.now);
    case CancelOrder(o, user) => PayAndCancelKeepLinks(s.db, o, user, true, 0);
    case ExpireRows(ids, _) => BulkKeepsOwned(s.db, Ids(ids));
    case _ =>
      OtherStepsChangePendingRowsOnly(s, step);
      OtherStepsKeepOwners(s, step);
      SameOwnersKeepLinks(s.db, Next(s, step).db);
  }

  lemma SameProgresses(db: Db)
    ensures Progress(db, db, {})
  {
  }

  // ---------------------------------------------------------------- workers keep fitting

  lemma OthersStillFit(sys: System, after: System, but: set<nat>)
    requires AllFit(sys) && Progress(sys.state.db, after.state.db, but) && OneOrderPerReservation(after.state.db.orders)
    requires Owned(after.state.db) && |sys.workers| <= |after.workers|
    requires forall w :: 0 <= w < |after.workers| ==>
      || Fits(after.state.db, after.workers[w])
      || (w < |sys.workers| && after.workers[w] == sys.workers[w]
          && (sys.workers[w].stage == Inserted ==> sys.workers[w].order.reservation !in but))
    requires forall v, w :: 0 <= v < w < |after.workers| && Writing(after.workers[v]) && Writing(after.workers[w]) ==>
      after.workers[v].order.reservation != after.workers[w].order.reservation
    ensures AllFit(after)
  {
    forall w | 0 <= w < |after.workers| ensures Fits(after.state.db, after.workers[w]) {
      if !Fits(after.state.db, after.workers[w]) {
        StillFits(sys.state.db, after.state.db, but, sys.workers[w]);
      }
    }
  }

  lemma ElsewhereFits(sys: System, step: Step)
    requires Constraints(sys.state.db) && AllFit(sys)
    ensures AllFit(Advance(sys, Elsewhere(step)))
  {
    var after := Advance(sys, Elsewhere(step));
    NextProgresses(sys.state, step);
    NextKeepsOwned(sys.state, step);
    ConstraintsOf(after.state.db);
    hide Constraints, Next, Fits, Progress, Owned, OneOrderPerReservation;
    OthersStillFit(sys, after, {});
  }

  lemma FetchFits(sys: System, r: nat)
    requires Constraints(sys.state.db) && AllFit(sys)
    ensures AllFit(Advance(sys, Fetch(r)))
  {
    hide Constraints;
  }

  lemma InsertFits(sys: System, w: nat)
    requires Constraints(sys.state.db) && AllFit(sys) && ConfirmedAreOrdered(sys.state.db)
    ensures AllFit(Advance(sys, Insert(w)))
  {
    var db, after := sys.state.db, Advance(sys, Insert(w));
    ConstraintsOf(after.state.db);
    hide Constraints;
    if At(sys, w, Fetched) && after.workers[w].stage == Inserted {
      var order := sys.workers[w].order;
      InsertedFits(db, sys.workers[w], after.workers[w]);
      forall v | 0 <= v < |sys.workers| && Writing(sys.workers[v])
        ensures sys.workers[v].order.reservation != order.reservation
      {
        WriterIsOrdered(db, sys.workers[v]);
      }
      assert Fits(db, sys.workers[w]);
      InsertProgresses(db, order);
      hide Fits, HasOrder, OneOrderPerReservation, Progress, Owned;
      OthersStillFit(sys, after, {});
    } else {
      SameTablesFit(sys, after);
    }
  }

  lemma WriterIsOrdered(db: Db, w: Worker)
    requires Fits(db, w) && Writing(w)
    ensures HasOrder(db, w.order.reservation)
  {
    var o :| 0 <= o < |db.orders| && Matches(db.orders[o], w);
    assert db.orders[o].reservation == w.order.reservation;
  }

  lemma InsertProgresses(db: Db, order: Order)
    requires Owned(db) && order.reservation < |db.reservations|
    requires order.user == db.reservations[order.reservation].user
    requires order.sale == db.reservations[order.reservation].sale
    ensures var after := db.(orders := db.orders + [order]); Progress(db, after, {}) && Owned(after)
  {
  }

  /** The insertion is accepted because the row had no order; so it is not confirmed. */
  lemma InsertedFits(db: Db, w: Worker, inserted: Worker)
    requires Fits(db, w) && ConfirmedAreOrdered(db) && inserted == w.(stage := Inserted)
    requires OneOrderPerReservation(db.orders + [w.order])
    ensures Fits(db.(orders := db.orders + [w.order]), inserted) && !HasOrder(db, w.order.reservation)
  {
    var orders := db.orders + [w.order];
    forall o | 0 <= o < |db.orders| ensures db.orders[o].reservation != w.order.reservation {
      assert orders[o].reservation != orders[|db.orders|].reservation;
    }
    assert Matches(orders[|db.orders|], inserted);
  }

  /** Workers that only move on to a stage in which nothing is asked of them. */
  lemma SameTablesFit(sys: System, after: System)
    requires AllFit(sys) && |after.workers| == |sys.workers|
    requires after.state.db.reservations == sys.state.db.reservations && after.state.db.orders == sys.state.db.orders
    requires forall w :: 0 <= w < |sys.workers| ==>
      after.workers[w] == sys.workers[w] || after.workers[w] == sys.workers[w].(stage := Ended)
    ensures AllFit(after)
  {
    forall w | 0 <= w < |sys.workers| ensures Fits(after.state.db, after.workers[w]) {
      assert Fits(sys.state.db, sys.workers[w]);
    }
  }

  lemma MarkFits(sys: System, w: nat)
    requires Constraints(sys.state.db) && AllFit(sys)
    ensures AllFit(Advance(sys, Mark(w)))
  {
    var db, after := sys.state.db, Advance(sys, Mark(w));
    ConstraintsOf(after.state.db);
    hide Constraints;
    if At(sys, w, Inserted) {
      assert Fits(db, sys.workers[w]);
      var r := sys.workers[w].order.reservation;
      MarkedFits(db, sys.workers[w], after.workers[w]);
      ConfirmingProgresses(db, r);
      hide Fits, OneOrderPerReservation, WithConfirmed, Progress, Owned;
      OthersStillFit(sys, after, {r});
    }
  }

  lemma MarkedFits(db: Db, w: Worker, marked: Worker)
    requires Fits(db, w) && w.stage == Inserted && marked == w.(stage := Marked)
    ensures Fits(WithConfirmed(db, w.order.reservation), marked)
  {
    var o :| 0 <= o < |db.orders| && Matches(db.orders[o], w);
    assert Matches(db.orders[o], marked);
  }

  lemma ConfirmingProgresses(db: Db, r: nat)
    requires Owned(db) && r < |db.reservations|
    ensures Progress(db, WithConfirmed(db, r), {r}) && Owned(WithConfirmed(db, r))
  {
  }

  lemma MovesFit(sys: System, move: Move)
    requires Constraints(sys.state.db) && AllFit(sys) && ConfirmedAreOrdered(sys.state.db)
    ensures AllFit(Advance(sys, move))
  {
    match move
    case Elsewhere(step) => ElsewhereFits(sys, step);
    case Fetch(r) => FetchFits(sys, r);
    case Insert(w) => InsertFits(sys, w);
    case Mark(w) => MarkFits(sys, w);
    case Sync(w) =>
      hide Constraints;
      SameTablesFit(sys, Advance(sys, move));
    case Commit(k) => CommitFits(sys, k);
    case _ =>
      hide Constraints;
      SameTablesFit(sys, Advance(sys, move));
  }

  lemma CommitFits(sys: System, k: nat)
    requires Constraints(sys.state.db) && AllFit(sys)
    ensures AllFit(Committed(sys, k))
  {
    var db, after := sys.state.db, Committed(sys, k);
    if Commits(sys, k) {
      SettlingProgresses(db, sys.settlements[k].order, sys.settlements[k].purpose);
      ConstraintsOf(after.state.db);
      hide Constraints, SettledTables, Fits, Progress, Owned, OneOrderPerReservation;
      OthersStillFit(sys, after, {});
    } else {
      hide Constraints, SettledTables;
      SameTablesFit(sys, after);
    }
  }

  lemma {:induction false} FitOverMoves(stock: map<nat, nat>, moves: seq<Move>)
    ensures AllFit(Moves(Start(stock), moves))
  {
    hide Advance, Constraints;
    if moves != [] {
      var front := moves[..|moves| - 1];
      FitOverMoves(stock, front);
      ConfirmedImpliesOrderedBetweenWrites(stock, front);
      MovesFit(Moves(Start(stock), front), moves[|moves| - 1]);
    }
  }

  // ---------------------------------------------------------------- sold units

  /** A settlement commits on an order another one has paid since it was read. */
  predicate SettlesPaid(sys: System, move: Move) {
    && Constraints(sys.state.db)
    && match move
       case Commit(k) => Commits(sys, k) && sys.state.db.orders[sys.settlements[k].order].status == Paid
       case _ => false
  }

  /** Sold units drift up at such a commit, and at no other move. */
  ghost predicate DriftsExactlyWhen(db: Db, after: Db, drifts: bool) {
    && after.inventory.Keys == db.inventory.Keys
    && (forall sale :: sale in db.inventory ==> Drift(after, sale) >= Drift(db, sale))
    && (drifts <==> exists sale :: sale in db.inventory && Drift(after, sale) > Drift(db, sale))
  }

  lemma CommitDrifts(sys: System, k: nat)
    requires Constraints(sys.state.db)
    ensures DriftsExactlyWhen(sys.state.db, Committed(sys, k).state.db, SettlesPaid(sys, Commit(k)))
  {
    if Commits(sys, k) {
      var db, o := sys.state.db, sys.settlements[k].order;
      PaidTablesKeepAccounts(db, {}, o);
      CancelledTablesKeepAccounts(db, {}, o);
      ConstraintsOf(db);
      assert db.orders[o].sale in db.inventory;
      hide Constraints, Drift, PaidTables, CancelledTables, Bounded;
    } else {
      hide Constraints, Drift, SettledTables;
    }
  }

  lemma SameDriftDoesNot(db: Db, after: Db)
    requires SameDrift(db, after)
    ensures DriftsExactlyWhen(db, after, false)
  {
  }

  lemma MoveDrifts(sys: System, move: Move)
    requires Constraints(sys.state.db) && AllFit(sys)
    ensures DriftsExactlyWhen(sys.state.db, Advance(sys, move).state.db, SettlesPaid(sys, move))
  {
    match move {
      case Commit(k) => CommitDrifts(sys, k);
      case Elsewhere(step) =>
        StepKeepsDrift(sys.state, step);
        SameDriftDoesNot(sys.state.db, Next(sys.state, step).db);
      case _ =>
        OtherMovesKeepDrift(sys, move);
        SameDriftDoesNot(sys.state.db, Advance(sys, move).state.db);
    }
    hide *;
  }

  lemma OtherMovesKeepDrift(sys: System, move: Move)
    requires Constraints(sys.state.db) && AllFit(sys) && !move.Commit? && !move.Elsewhere?
    ensures SameDrift(sys.state.db, Advance(sys, move).state.db) && !SettlesPaid(sys, move)
  {
    hide Constraints, Sum;
    match move
    case Insert(w) =>
      if w < |sys.workers| {
        assert Fits(sys.state.db, sys.workers[w]);
        NewOrderKeepsAccounts(sys.state.db, {}, sys.workers[w].order);
      }
    case _ =>
  }

  lemma NoDriftAtFirst(stock: map<nat, nat>)
    ensures SoldIsPaid(Start(stock).state.db)
  {
  }

  lemma DriftsToZero(db: Db, after: Db, drifts: bool)
    requires DriftsExactlyWhen(db, after, drifts) && forall sale :: sale in db.inventory ==> Drift(db, sale) >= 0
    ensures forall sale :: sale in after.inventory ==> Drift(after, sale) >= 0
    ensures SoldIsPaid(after) <==> SoldIsPaid(db) && !drifts
  {
    hide Drift;
  }

  /**
   Between reads and writes sold_quantity is never less than the units of paid orders, and is equal to
   them exactly when no payment or cancellation has committed on an order already paid.
   */
  lemma {:induction false} SoldIsPaidExactlyWhen(stock: map<nat, nat>, moves: seq<Move>)
    ensures var db := Moves(Start(stock), moves).state.db;
      forall sale :: sale in db.inventory ==> Drift(db, sale) >= 0
    ensures SoldIsPaid(Moves(Start(stock), moves).state.db) <==> Never(stock, moves, SettlesPaid)
  {
    NoDriftAtFirst(stock);
    NoMoves(stock);
    hide Advance, Constraints, Moves, Start, Drift, AllFit, SettlesPaid, DriftsExactlyWhen;
    if moves != [] {
      var front := moves[..|moves| - 1];
      SoldIsPaidExactlyWhen(stock, front);
      FitOverMoves(stock, front);
      OneMoreMove(stock, moves, SettlesPaid);
      MoveDrifts(Moves(Start(stock), front), moves[|moves| - 1]);
      DriftsToZero(Moves(Start(stock), front).state.db, Moves(Start(stock), moves).state.db,
                   SettlesPaid(Moves(Start(stock), front), moves[|moves| - 1]));
    }
  }

  lemma {:induction false} TotalsOverMoves(stock: map<nat, nat>, moves: seq<Move>)
    ensures Totals(Moves(Start(stock), moves).state.db, stock)
  {
    hide Advance, Constraints;
    if moves != [] {
      var front := moves[..|moves| - 1];
      TotalsOverMoves(stock, front);
      MoveKeepsTotals(Moves(Start(stock), front), moves[|moves| - 1], stock);
    }
  }

  lemma MoveKeepsTotals(sys: System, move: Move, stock: map<nat, nat>)
    requires Constraints(sys.state.db) && Totals(sys.state.db, stock)
    ensures Totals(Advance(sys, move).state.db, stock)
  {
    ConstraintsOf(sys.state.db);
    hide Constraints, Next;
    match move
    case Elsewhere(step) => StepKeepsTotals(sys.state, step, stock);
    case _ =>
  }

  /** Whatever races, the units of paid orders never exceed the seeded stock. */
  lemma PaidUnitsWithinStock(stock: map<nat, nat>, moves: seq<Move>, sale: nat)
    requires sale in stock
    ensures var db := Moves(Start(stock), moves).state.db;
      && sale in db.inventory
      && Sum(db.orders, PaidUnits(sale)) <= db.inventory[sale].sold <= db.inventory[sale].total == stock[sale]
  {
    SoldIsPaidExactlyWhen(stock, moves);
    TotalsOverMoves(stock, moves);
    var db := Moves(Start(stock), moves).state.db;
    ConstraintsOf(db);
    hide Advance, Constraints, Moves, Start;
    assert Drift(db, sale) >= 0 && db.inventory[sale].Check();
  }

  // ---------------------------------------------------------------- reserved units

  /** The reservations some worker has marked and not yet counted. */
  function Awaiting(sys: System): set<nat> {
    set w | 0 <= w < |sys.workers| && sys.workers[w].stage == Marked :: sys.workers[w].order.reservation
  }

  /** Marked workers stay as they are and are joined by none but those of `more`, left by none but those of `less`. */
  lemma AwaitingAfter(sys: System, after: System, more: set<nat>, less: set<nat>)
    requires |sys.workers| <= |after.workers|
    requires forall v :: 0 <= v < |sys.workers| && sys.workers[v].stage == Marked ==>
      if sys.workers[v].order.reservation in less then after.workers[v].stage != Marked
      else after.workers[v] == sys.workers[v]
    requires forall v :: 0 <= v < |after.workers| && after.workers[v].stage == Marked ==>
      || (v < |sys.workers| && after.workers[v] == sys.workers[v])
      || after.workers[v].order.reservation in more
    requires forall x :: x in more ==>
      exists v :: 0 <= v < |after.workers| && after.workers[v].stage == Marked &&
        after.workers[v].order.reservation == x
    requires more !! less
    ensures Awaiting(after) == Awaiting(sys) + more - less
  {
    forall x | x in Awaiting(sys) && x !in less ensures x in Awaiting(after) {
      var v :| 0 <= v < |sys.workers| && sys.workers[v].stage == Marked && sys.workers[v].order.reservation == x;
      assert after.workers[v] == sys.workers[v];
    }
    forall x | x in Awaiting(after) ensures x in Awaiting(sys) + more - less {
      var v :| 0 <= v < |after.workers| && after.workers[v].stage == Marked && after.workers[v].order.reservation == x;
      if x !in more {
        assert after.workers[v] == sys.workers[v];
      }
    }
  }

  function Counted(db: Db, awaiting: set<nat>, sale: nat): int {
    Sum(db.orders, CountedUnits(db.reservations, awaiting, sale))
  }

  /** An accepted increment for an order that is no longer held, with no room left by others. */
  predicate CountsLate(sys: System, w: nat)
    requires Constraints(sys.state.db)
  {
    && At(sys, w, Marked)
    && var db, order := sys.state.db, sys.workers[w].order;
       && order.sale in db.inventory
       && Constraints(WithReserved(db, order.sale, order.quantity))
       && !HeldRow(db, order.reservation)
       && db.inventory[order.sale].reserved + order.quantity > Counted(db, Awaiting(sys), order.sale)
  }

  /** A batch whose rows, with the counted orders outside it, have fewer units than are reserved. */
  predicate TakesBackTooLittle(db: Db, awaiting: set<nat>, ids: set<nat>) {
    exists sale :: sale in db.inventory
      && db.inventory[sale].reserved > UnitsOf(db.reservations, ids, sale) + Counted(db, awaiting + ids, sale)
  }

  predicate ExpiresNow(s: State, ids: seq<nat>) {
    Rows(s.db, ids) && forall i :: 0 <= i < |ids| ==> Overdue(s.db.reservations[ids[i]], s.now)
  }

  predicate Overcounts(sys: System, move: Move) {
    && Constraints(sys.state.db)
    && match move
       case Sync(w) => CountsLate(sys, w)
       case Elsewhere(step) =>
         && step.ExpireRows? && ExpiresNow(sys.state, step.ids)
         && TakesBackTooLittle(sys.state.db, Awaiting(sys), Ids(step.ids))
       case _ => false
  }

  ghost predicate CountsHeld(sys: System) {
    Bounded(sys.state.db, Awaiting(sys))
  }

  lemma FewerAwaiting(db: Db, awaiting: set<nat>, fewer: set<nat>)
    requires fewer <= awaiting && Bounded(db, awaiting)
    ensures Bounded(db, fewer)
  {
    forall sale | sale in db.inventory ensures Counted(db, awaiting, sale) <= Counted(db, fewer, sale) {
      SumAtMost(db.orders, CountedUnits(db.reservations, awaiting, sale), CountedUnits(db.reservations, fewer, sale));
    }
  }

  lemma ExpiryIsBoundedExactlyWhen(db: Db, awaiting: set<nat>, ids: set<nat>)
    ensures Bounded(ExpireBulk(db, ids), awaiting) <==> !TakesBackTooLittle(db, awaiting, ids)
  {
    var after := ExpireBulk(db, ids);
    forall sale
      ensures Counted(after, awaiting, sale) == Counted(db, awaiting + ids, sale) >= 0
    {
      SumCongruent(db.orders, after.orders, CountedUnits(db.reservations, awaiting + ids, sale),
                   CountedUnits(after.reservations, awaiting, sale));
      CountedUnitsAreNonNegative(db, awaiting + ids, sale);
    }
    assert after.inventory.Keys == db.inventory.Keys;
    forall sale | sale in db.inventory
      ensures after.inventory[sale] == db.inventory[sale].Unreserve(UnitsOf(db.reservations, ids, sale))
    {
    }
    hide UnitsOf, ExpireBulk, Sum;
    if Bounded(after, awaiting) {
      forall sale | sale in db.inventory
        ensures db.inventory[sale].reserved <= UnitsOf(db.reservations, ids, sale) + Counted(db, awaiting + ids, sale)
      {
        assert after.inventory[sale].reserved <= Counted(after, awaiting, sale);
      }
    }
  }

  predicate Settled(db: Db, awaiting: set<nat>) {
    forall r :: r in awaiting ==> r < |db.reservations| && db.reservations[r].status != Pending
  }

  lemma SettledIsNotPending(db: Db, awaiting: set<nat>, r: nat)
    requires Settled(db, awaiting) && r < |db.reservations| && db.reservations[r].status == Pending
    ensures r !in awaiting
  {
  }

  lemma ConsumedIsBounded(s: State, awaiting: set<nat>, r: nat, writes: nat, raised: bool)
    requires Constraints(s.db) && Settled(s.db, awaiting) && Bounded(s.db, awaiting)
    ensures Bounded(Consumed(s, r, writes, raised).db, awaiting)
  {
    hide Constraints, Bounded, Settled, Deliver;
    if r < |s.db.reservations| && s.db.reservations[r].status == Pending {
      SettledIsNotPending(s.db, awaiting, r);
    }
    DeliverKeepsBound(s.db, awaiting, r, writes);
  }

  lemma StepIsBoundedExactlyWhen(s: State, awaiting: set<nat>, step: Step)
    requires Constraints(s.db) && Settled(s.db, awaiting) && Bounded(s.db, awaiting)
    ensures Bounded(Next(s, step).db, awaiting)
      <==> !(step.ExpireRows? && ExpiresNow(s, step.ids) && TakesBackTooLittle(s.db, awaiting, Ids(step.ids)))
  {
    ConstraintsOf(s.db);
    hide Constraints, References, Bounded, SoldIsPaid, Settled, PendingRowsOnly, ExpiresNow, TakesBackTooLittle;
    hide Pay, Cancel, RowsExpired, Arrived, UnitsReserved, Persisted, Compensated, Modified, Polled, Consumed;
    match step
    case Consume(r, writes, raised) => ConsumedIsBounded(s, awaiting, r, writes, raised);
    case PayOrder(o, user, cardOk) => PayKeepsAccounts(s.db, awaiting, o, user, cardOk, s.now);
    case CancelOrder(o, user) => CancelKeepsAccounts(s.db, awaiting, o, user);
    case ExpireRows(ids, active) => ExpiredIsBoundedExactlyWhen(s, awaiting, ids, active);
    case _ =>
      OtherStepsChangePendingRowsOnly(s, step);
      PendingRowsKeepAccounts(s.db, Next(s, step).db, awaiting);
  }

  lemma ExpiredIsBoundedExactlyWhen(s: State, awaiting: set<nat>, ids: seq<nat>, active: set<nat>)
    requires Constraints(s.db) && Bounded(s.db, awaiting)
    ensures Bounded(RowsExpired(s, ids, active).db, awaiting)
      <==> !(ExpiresNow(s, ids) && TakesBackTooLittle(s.db, awaiting, Ids(ids)))
  {
    hide Constraints, Bounded, ExpireBulk, TakesBackTooLittle, Rows, Overdue;
    ExpiryIsBoundedExactlyWhen(s.db, awaiting, Ids(ids));
  }

  lemma AwaitingAreSettled(sys: System)
    requires AllFit(sys)
    ensures Settled(sys.state.db, Awaiting(sys))
  {
    forall r | r in Awaiting(sys)
      ensures r < |sys.state.db.reservations| && sys.state.db.reservations[r].status != Pending
    {
      var w :| 0 <= w < |sys.workers| && sys.workers[w].stage == Marked && sys.workers[w].order.reservation == r;
      assert Fits(sys.state.db, sys.workers[w]);
    }
  }

  lemma ElsewhereIsBoundedExactlyWhen(sys: System, step: Step)
    requires Constraints(sys.state.db) && AllFit(sys) && Bounded(sys.state.db, Awaiting(sys))
    ensures Bounded(Next(sys.state, step).db, Awaiting(sys)) <==> !Overcounts(sys, Elsewhere(step))
  {
    AwaitingAreSettled(sys);
    StepIsBoundedExactlyWhen(sys.state, Awaiting(sys), step);
    hide Constraints, Bounded, AllFit, Awaiting, Settled, Next, TakesBackTooLittle, ExpiresNow;
  }

  /** Once its units are counted, an order of `awaiting` counts if it is held. */
  lemma CountedNow(db: Db, awaiting: set<nat>, o: nat, sale: nat)
    requires OneOrderPerReservation(db.orders) && o < |db.orders| && db.orders[o].reservation in awaiting
    ensures Counted(db, awaiting - {db.orders[o].reservation}, sale) == Counted(db, awaiting, sale)
      + if sale == db.orders[o].sale && Held(db.reservations, db.orders[o]) then db.orders[o].quantity else 0
  {
    var rest := awaiting - {db.orders[o].reservation};
    SumOneChange(db.orders, db.orders, CountedUnits(db.reservations, awaiting, sale),
                 CountedUnits(db.reservations, rest, sale), o);
  }

  lemma AwaitingWithout(sys: System, after: System, w: nat)
    requires AllFit(sys) && At(sys, w, Marked) && after.workers == sys.workers[w := sys.workers[w].(stage := Ended)]
    ensures Awaiting(after) == Awaiting(sys) - {sys.workers[w].order.reservation}
    ensures sys.workers[w].order.reservation in Awaiting(sys)
  {
    var r := sys.workers[w].order.reservation;
    assert Writing(sys.workers[w]);
    forall v | 0 <= v < |sys.workers| && sys.workers[v].stage == Marked && v != w
      ensures sys.workers[v].order.reservation != r
    {
      assert Writing(sys.workers[v]);
    }
    AwaitingAfter(sys, after, {}, {r});
  }

  lemma SyncIsBoundedExactlyWhen(sys: System, w: nat)
    requires Constraints(sys.state.db) && AllFit(sys) && Bounded(sys.state.db, Awaiting(sys)) && At(sys, w, Marked)
    ensures var after := Advance(sys, Sync(w));
      Bounded(after.state.db, Awaiting(after)) <==> !CountsLate(sys, w)
  {
    var db, after, worker := sys.state.db, Advance(sys, Sync(w)), sys.workers[w];
    var order := worker.order;
    AwaitingWithout(sys, after, w);
    ConstraintsOf(db);
    assert Fits(db, worker);
    var o :| 0 <= o < |db.orders| && Matches(db.orders[o], worker);
    HeldRowIsTheMatch(db, o);
    assert order.sale in db.inventory;
    forall x ensures Counted(db, Awaiting(after), x) == Counted(db, Awaiting(sys), x)
      + if x == order.sale && HeldRow(db, order.reservation) then order.quantity else 0
    {
      CountedNow(db, Awaiting(sys), o, x);
    }
    hide Constraints, References, OneOrderPerReservation, StockChecks, AllFit, Fits, Awaiting, HeldRow;
    hide Sum, CountedUnits;
    assert after.state.db.orders == db.orders && after.state.db.reservations == db.reservations;
    assert after.state.db.inventory.Keys == db.inventory.Keys;
    assert forall x :: Counted(after.state.db, Awaiting(after), x) == Counted(db, Awaiting(after), x);
    BoundedBySale(sys, after, w);
  }

  lemma BoundedBySale(sys: System, after: System, w: nat)
    requires Constraints(sys.state.db) && Bounded(sys.state.db, Awaiting(sys)) && At(sys, w, Marked)
    requires after == Advance(sys, Sync(w))
    requires sys.workers[w].order.sale in sys.state.db.inventory
    requires var held := HeldRow(sys.state.db, sys.workers[w].order.reservation);
      forall x :: Counted(after.state.db, Awaiting(after), x) == Counted(sys.state.db, Awaiting(sys), x)
        + if x == sys.workers[w].order.sale && held then sys.workers[w].order.quantity else 0
    ensures Bounded(after.state.db, Awaiting(after)) <==> !CountsLate(sys, w)
  {
    hide Constraints, Awaiting, HeldRow, Sum, CountedUnits;
    var sale := sys.workers[w].order.sale;
    if Bounded(after.state.db, Awaiting(after)) {
      assert after.state.db.inventory[sale].reserved <= Counted(after.state.db, Awaiting(after), sale);
      assert sys.state.db.inventory[sale].reserved <= Counted(sys.state.db, Awaiting(sys), sale);
    } else {
      var x :| x in after.state.db.inventory
        && after.state.db.inventory[x].reserved > Counted(after.state.db, Awaiting(after), x);
      assert sys.state.db.inventory[x].reserved <= Counted(sys.state.db, Awaiting(sys), x);
    }
  }

  lemma HeldRowIsTheMatch(db: Db, o: nat)
    requires OneOrderPerReservation(db.orders) && o < |db.orders|
    ensures HeldRow(db, db.orders[o].reservation) <==> Held(db.reservations, db.orders[o])
  {
  }

  lemma MarkKeepsBound(sys: System, w: nat)
    requires Constraints(sys.state.db) && AllFit(sys) && Bounded(sys.state.db, Awaiting(sys)) && At(sys, w, Inserted)
    ensures var after := Advance(sys, Mark(w)); Bounded(after.state.db, Awaiting(after))
  {
    var db, after := sys.state.db, Advance(sys, Mark(w));
    var r := sys.workers[w].order.reservation;
    assert Fits(db, sys.workers[w]);
    hide Constraints;
    assert after.workers[w].stage == Marked && after.workers[w].order.reservation == r;
    AwaitingAfter(sys, after, {r}, {});
    forall sale ensures Counted(after.state.db, Awaiting(after), sale) == Counted(db, Awaiting(sys), sale) {
      forall o | 0 <= o < |db.orders| && db.orders[o].reservation == r
        ensures !Held(db.reservations, db.orders[o])
      {
      }
      SumCongruent(db.orders, after.state.db.orders, CountedUnits(db.reservations, Awaiting(sys), sale),
                   CountedUnits(after.state.db.reservations, Awaiting(after), sale));
    }
    assert after.state.db.inventory == db.inventory;
    hide Awaiting, Sum, CountedUnits, Advance;
    assert forall sale :: sale in db.inventory ==> db.inventory[sale].reserved <= Counted(db, Awaiting(sys), sale);
  }

  lemma MoveIsBoundedExactlyWhen(sys: System, move: Move)
    requires Constraints(sys.state.db) && AllFit(sys) && Bounded(sys.state.db, Awaiting(sys))
    ensures var after := Advance(sys, move);
      Bounded(after.state.db, Awaiting(after)) <==> !Overcounts(sys, move)
  {
    var after := Advance(sys, move);
    match move
    case Elsewhere(step) => ElsewhereIsBoundedExactlyWhen(sys, step);
    case Sync(w) => if At(sys, w, Marked) { SyncIsBoundedExactlyWhen(sys, w); }
    case Mark(w) => if At(sys, w, Inserted) { MarkKeepsBound(sys, w); }
    case Insert(w) =>
      hide Constraints;
      AwaitingAfter(sys, after, {}, {});
      if w < |sys.workers| {
        assert Fits(sys.state.db, sys.workers[w]);
        NewOrderKeepsAccounts(sys.state.db, Awaiting(sys), sys.workers[w].order);
      }
    case Die(w) =>
      hide Constraints;
      assert Awaiting(after) <= Awaiting(sys);
      FewerAwaiting(sys.state.db, Awaiting(sys), Awaiting(after));
    case Commit(k) => CommitKeepsBound(sys, k);
    case _ =>
      hide Constraints;
      AwaitingAfter(sys, after, {}, {});
  }

  lemma CommitKeepsBound(sys: System, k: nat)
    requires Constraints(sys.state.db) && Bounded(sys.state.db, Awaiting(sys))
    ensures var after := Committed(sys, k); Bounded(after.state.db, Awaiting(after))
  {
    AwaitingAfter(sys, Committed(sys, k), {}, {});
    if Commits(sys, k) {
      PaidTablesKeepAccounts(sys.state.db, Awaiting(sys), sys.settlements[k].order);
      CancelledTablesKeepAccounts(sys.state.db, Awaiting(sys), sys.settlements[k].order);
    }
    hide Constraints, Bounded, Awaiting, PaidTables, CancelledTables;
  }

  /**
   reserved_quantity, with the increments still to come left out of the held units, stays within them
   between all reads and writes exactly when no increment comes after its order has stopped being held,
   and no batch takes back less than it drops, beyond the room other orders leave.
   */
  lemma ReservedIsBoundedExactlyWhen(stock: map<nat, nat>, moves: seq<Move>)
    ensures Throughout(stock, moves, CountsHeld) <==> Never(stock, moves, Overcounts)
  {
    assert Bounded(Init(stock).db, Awaiting(Start(stock)));
    hide Advance, Constraints, Moves, Start, Bounded, Awaiting, AllFit, Overcounts;
    forall i | 0 <= i < |moves|
      ensures BreaksExactlyWhen(Moves(Start(stock), moves[..i]), moves[i], CountsHeld, Overcounts)
    {
      FitOverMoves(stock, moves[..i]);
      if CountsHeld(Moves(Start(stock), moves[..i])) {
        MoveIsBoundedExactlyWhen(Moves(Start(stock), moves[..i]), moves[i]);
      }
    }
    ThroughoutExactlyWhen(stock, moves, CountsHeld, Overcounts);
  }

  /** An increment for a row that is not held, or the expiry of a held row with fewer units than its order. */
  predicate Careless(sys: System, move: Move) {
    match move
    case Sync(w) => At(sys, w, Marked) && !HeldRow(sys.state.db, sys.workers[w].order.reservation)
    case Elsewhere(step) =>
      step.ExpireRows? && ExpiresNow(sys.state, step.ids) && !HeldWithin(sys.state.db, Ids(step.ids))
    case _ => false
  }

  lemma CarefulDoesNotOvercount(sys: System, move: Move)
    requires Constraints(sys.state.db) && AllFit(sys) && CountsHeld(sys) && !Careless(sys, move)
    ensures !Overcounts(sys, move)
  {
    if move.Elsewhere? && move.step.ExpireRows? && ExpiresNow(sys.state, move.step.ids) {
      ExpiryKeepsBound(sys.state.db, Awaiting(sys), move.step.ids);
      ExpiryIsBoundedExactlyWhen(sys.state.db, Awaiting(sys), Ids(move.step.ids));
    }
    hide Constraints, AllFit, Bounded, Awaiting, ExpireBulk, TakesBackTooLittle, HeldWithin, HeldRow, Rows, Ids;
  }

  /** It is enough that every increment finds its row held, and every expired held row has its order's units. */
  lemma {:induction false} CarefulMovesCountHeld(stock: map<nat, nat>, moves: seq<Move>)
    requires Never(stock, moves, Careless)
    ensures CountsHeld(Moves(Start(stock), moves))
  {
    if moves == [] {
      NoMoves(stock);
      assert Bounded(Init(stock).db, Awaiting(Start(stock)));
    } else {
      hide *;
      var front := moves[..|moves| - 1];
      OneMoreMove(stock, moves, Careless);
      CarefulMovesCountHeld(stock, front);
      FitOverMoves(stock, front);
      CarefulMoveCountsHeld(Moves(Start(stock), front), moves[|moves| - 1]);
    }
  }

  lemma CarefulMoveCountsHeld(sys: System, move: Move)
    requires Constraints(sys.state.db) && AllFit(sys) && CountsHeld(sys) && !Careless(sys, move)
    ensures CountsHeld(Advance(sys, move))
  {
    CarefulDoesNotOvercount(sys, move);
    MoveIsBoundedExactlyWhen(sys, move);
    hide Constraints, AllFit, Bounded, Awaiting, Advance, Overcounts, Careless;
  }

  /** Then reserved_quantity is at most the held units between any reads and writes. */
  lemma ReservedWithinHeldBetweenWrites(stock: map<nat, nat>, moves: seq<Move>, sale: nat)
    requires Never(stock, moves, Overcounts) || Never(stock, moves, Careless)
    ensures var db := Moves(Start(stock), moves).state.db;
      sale in db.inventory ==> db.inventory[sale].reserved <= Sum(db.orders, HeldUnits(db.reservations, sale))
  {
    hide Advance, Constraints, Overcounts, Never, Start, Moves, Careless;
    if Never(stock, moves, Careless) {
      CarefulMovesCountHeld(stock, moves);
    } else {
      ReservedIsBoundedExactlyWhen(stock, moves);
      assert moves[..|moves|] == moves;
      assert CountsHeld(Moves(Start(stock), moves[..|moves|]));
    }
    var sys := Moves(Start(stock), moves);
    FewerAwaiting(sys.state.db, Awaiting(sys), {});
  }
}
