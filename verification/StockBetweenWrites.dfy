/**
 No oversell between reads and writes: the counter ledger, what buyers hold against what their rows are
 charged, and the orders against their rows, with every read allowed to be stale when it is used.
 */
module StockBetweenWrites {
  import opened Sums
  import opened Tables
  import opened Expiry
  import opened Protocol
  import opened CounterLedger
  import opened Oversell
  import opened Interleaving
  import opened BetweenWrites
  import opened Races

  // ---------------------------------------------------------------- the counter

  lemma SettlingKeepsCharges(db: Db, o: nat, purpose: Purpose)
    requires Constraints(db) && o < |db.orders|
    ensures SameCharges(db.reservations, SettledTables(db, o, purpose).reservations)
    ensures SettledTables(db, o, purpose).inventory.Keys == db.inventory.Keys
  {
    ConstraintsOf(db);
    hide Constraints;
  }

  lemma CommitReturnsNothing(sys: System, k: nat)
    requires Constraints(sys.state.db) && NoRowHolds(sys.state.store)
    ensures Committed(sys, k).state.store == sys.state.store
  {
    hide Constraints, SettledTables;
  }

  lemma LedgerHasNoRowHolds(s: State, stock: map<nat, nat>)
    requires CounterLedger.Ledger(s, stock)
    ensures NoRowHolds(s.store)
  {
  }

  lemma CommitKeepsLedger(sys: System, k: nat, stock: map<nat, nat>)
    requires Constraints(sys.state.db) && CounterLedger.Ledger(sys.state, stock)
    ensures CounterLedger.Ledger(Committed(sys, k).state, stock)
  {
    LedgerHasNoRowHolds(sys.state, stock);
    CommitReturnsNothing(sys, k);
    hide Constraints, SettledTables, CounterLedger.Ledger, SameCharges;
    if Commits(sys, k) {
      SettlingKeepsCharges(sys.state.db, sys.settlements[k].order, sys.settlements[k].purpose);
      TablesOnlyKeep(sys.state, Committed(sys, k).state, stock);
    }
  }

  lemma WritesKeepCharges(sys: System, move: Move)
    requires Constraints(sys.state.db) && !move.Commit? && !move.Elsewhere?
    ensures var after := Advance(sys, move).state;
      && after.store == sys.state.store && after.flights == sys.state.flights
      && after.db.inventory.Keys == sys.state.db.inventory.Keys
      && SameCharges(sys.state.db.reservations, after.db.reservations)
  {
    hide Constraints;
  }

  lemma MoveKeepsLedger(sys: System, move: Move, stock: map<nat, nat>)
    requires Constraints(sys.state.db) && CounterLedger.Ledger(sys.state, stock)
    ensures CounterLedger.Ledger(Advance(sys, move).state, stock)
  {
    match move {
      case Commit(k) => CommitKeepsLedger(sys, k, stock);
      case Elsewhere(step) => StepKeepsLedger(sys.state, step, stock);
      case _ =>
        hide *;
        WritesKeepCharges(sys, move);
        TablesOnlyKeep(sys.state, Advance(sys, move).state, stock);
    }
    hide *;
  }

  lemma LedgerAtFirst(stock: map<nat, nat>)
    ensures CounterLedger.Ledger(Start(stock).state, stock)
  {
  }

  lemma {:induction false} LedgerOverMoves(stock: map<nat, nat>, moves: seq<Move>)
    ensures CounterLedger.Ledger(Moves(Start(stock), moves).state, stock)
  {
    NoMoves(stock);
    LedgerAtFirst(stock);
    hide Advance, Constraints, Start, CounterLedger.Ledger;
    if moves != [] {
      LedgerOverMoves(stock, moves[..|moves| - 1]);
      MoveKeepsLedger(Moves(Start(stock), moves[..|moves| - 1]), moves[|moves| - 1], stock);
    }
  }

  // ---------------------------------------------------------------- claims

  /** A payment commits for more units than the order's row has by then. */
  predicate PaysForMoreNow(sys: System, move: Move) {
    && Constraints(sys.state.db)
    && match move
       case Commit(k) =>
         && CommitsTo(sys, k, Paying)
         && var order := sys.state.db.orders[sys.settlements[k].order];
            order.quantity > sys.state.db.reservations[order.reservation].quantity
       case Elsewhere(step) => PaysForMore(sys.state, step)
       case _ => false
  }

  ghost predicate PaidNow(sys: System) {
    PaidWithin(sys.state.db)
  }

  ghost predicate ClaimsNow(sys: System) {
    ClaimsWithinCharges(sys.state.db)
  }

  lemma CancelledTablesKeepWithin(db: Db, o: nat)
    requires Constraints(db) && PaidAreSettled(db) && o < |db.orders|
    ensures PaidAreSettled(CancelledTables(db, o))
    ensures PaidWithin(db) ==> PaidWithin(CancelledTables(db, o))
  {
    ConstraintsOf(db);
    hide Constraints;
    var after := CancelledTables(db, o);
    assert forall r :: 0 <= r < |db.reservations| ==> after.reservations[r].quantity == db.reservations[r].quantity;
  }

  lemma CommitKeepsClaimsExactlyWhen(sys: System, k: nat)
    requires Constraints(sys.state.db) && PaidAreSettled(sys.state.db)
    ensures PaidAreSettled(Committed(sys, k).state.db)
    ensures PaidNow(sys) ==> (PaidNow(Committed(sys, k)) <==> !PaysForMoreNow(sys, Commit(k)))
  {
    if Commits(sys, k) {
      PaidTablesKeepWithinExactlyWhen(sys.state.db, sys.settlements[k].order);
      CancelledTablesKeepWithin(sys.state.db, sys.settlements[k].order);
    }
    hide Constraints, PaidTables, CancelledTables, PaidWithin, PaidAreSettled;
  }

  lemma WritesKeepPaidRows(sys: System, move: Move)
    requires Constraints(sys.state.db) && !move.Commit? && !move.Elsewhere?
    ensures SamePaidRows(sys.state.db, Advance(sys, move).state.db)
  {
    hide Constraints;
  }

  lemma MoveKeepsClaimsExactlyWhen(sys: System, move: Move)
    requires Constraints(sys.state.db) && AllFit(sys) && PaidAreSettled(sys.state.db)
    ensures PaidAreSettled(Advance(sys, move).state.db)
    ensures PaidNow(sys) ==> (PaidNow(Advance(sys, move)) <==> !PaysForMoreNow(sys, move))
  {
    match move {
      case Commit(k) => CommitKeepsClaimsExactlyWhen(sys, k);
      case Elsewhere(step) => StepKeepsClaimsExactlyWhen(sys.state, step);
      case _ =>
        WritesPayNobody(sys, move);
        WritesKeepPaidRows(sys, move);
        SamePaidSameClaims(sys.state.db, Advance(sys, move).state.db);
    }
    hide Constraints, Advance, AllFit, PaidWithin, PaidAreSettled, CommitsTo, PaysForMore;
  }

  lemma {:induction false} SettledOverMoves(stock: map<nat, nat>, moves: seq<Move>)
    ensures PaidAreSettled(Moves(Start(stock), moves).state.db)
  {
    hide Advance, Constraints, AllFit;
    if moves != [] {
      var front := moves[..|moves| - 1];
      SettledOverMoves(stock, front);
      FitOverMoves(stock, front);
      MoveKeepsClaimsExactlyWhen(Moves(Start(stock), front), moves[|moves| - 1]);
    }
  }

  lemma ClaimsArePaid(sys: System)
    requires Constraints(sys.state.db)
    ensures ClaimsNow(sys) <==> PaidNow(sys)
  {
    ConstraintsOf(sys.state.db);
    hide Constraints, ClaimsWithinCharges, PaidWithin;
    ClaimsWithinExactlyWhen(sys.state.db);
  }

  /**
   Between reads and writes buyers never hold more of a row than it is charged exactly when no payment
   commits for more units than its row has by then.
   */
  lemma ClaimsStayWithinBetweenWritesExactlyWhen(stock: map<nat, nat>, moves: seq<Move>)
    ensures Throughout(stock, moves, ClaimsNow) <==> Never(stock, moves, PaysForMoreNow)
  {
    assert ClaimsNow(Start(stock));
    hide Advance, Constraints, Moves, Start, AllFit, PaidAreSettled, PaysForMoreNow, ClaimsNow, PaidNow;
    forall i | 0 <= i < |moves|
      ensures BreaksExactlyWhen(Moves(Start(stock), moves[..i]), moves[i], ClaimsNow, PaysForMoreNow)
    {
      var sys := Moves(Start(stock), moves[..i]);
      FitOverMoves(stock, moves[..i]);
      SettledOverMoves(stock, moves[..i]);
      MoveKeepsClaimsExactlyWhen(sys, moves[i]);
      ClaimsArePaid(sys);
      ClaimsArePaid(Advance(sys, moves[i]));
    }
    ThroughoutExactlyWhen(stock, moves, ClaimsNow, PaysForMoreNow);
  }

  /** Then free units, units in flight, and the live and paid units of a sale are within its stock. */
  lemma LiveAndPaidWithinStockBetweenWrites(stock: map<nat, nat>, moves: seq<Move>, sale: nat)
    requires sale in stock && Never(stock, moves, PaysForMoreNow)
    ensures var s := Moves(Start(stock), moves).state;
      && 0 <= Counter(s, sale) && 0 <= InFlight(s, sale)
      && Counter(s, sale) + InFlight(s, sale) + LiveAndPaid(s.db, sale, |s.db.reservations|) <= stock[sale]
  {
    hide Advance, Constraints, Moves, Start, ClaimsWithinCharges, Never, PaysForMoreNow;
    var sys := Moves(Start(stock), moves);
    ClaimsStayWithinBetweenWritesExactlyWhen(stock, moves);
    assert moves[..|moves|] == moves;
    assert ClaimsNow(Moves(Start(stock), moves[..|moves|]));
    LedgerOverMoves(stock, moves);
    ClaimedWithinLedger(sys.state, stock, sale);
  }

  lemma ClaimedWithinLedger(s: State, stock: map<nat, nat>, sale: nat)
    requires CounterLedger.Ledger(s, stock) && ClaimsWithinCharges(s.db) && sale in stock
    ensures 0 <= Counter(s, sale) && 0 <= InFlight(s, sale)
    ensures Counter(s, sale) + InFlight(s, sale) + LiveAndPaid(s.db, sale, |s.db.reservations|) <= stock[sale]
  {
    hide NoRowHolds, ClaimsWithinCharges;
    ClaimsAtMostCharges(s.db, sale, |s.db.reservations|);
    assert s.db.reservations[..|s.db.reservations|] == s.db.reservations;
    assert Accounted(s, sale) == stock[sale];
    SumNonNegative(s.flights, InFlightUnits(sale));
    SumNonNegative(s.flights, LostUnits(sale));
  }

  // ---------------------------------------------------------------- the whole sale, exactly

  /** The units paid for beyond what their rows are charged. */
  function Overpaid(db: Db, sale: nat, rows: nat): nat
    requires rows <= |db.reservations|
  {
    if rows == 0 then 0
    else
      var r := rows - 1; var extra := PaidFor(db, r) - db.reservations[r].quantity;
      Overpaid(db, sale, r) + if db.reservations[r].sale == sale && extra > 0 then extra else 0
  }

  /** The units charged to rows beyond what their buyers hold: dead rows, but for what was paid of them. */
  function Unclaimed(db: Db, sale: nat, rows: nat): nat
    requires rows <= |db.reservations|
  {
    if rows == 0 then 0
    else
      var r := rows - 1; var idle := db.reservations[r].quantity - Claim(db, r);
      Unclaimed(db, sale, r) + if db.reservations[r].sale == sale && idle > 0 then idle else 0
  }

  lemma {:induction false} ClaimsAndCharges(db: Db, sale: nat, rows: nat)
    requires rows <= |db.reservations|
    ensures LiveAndPaid(db, sale, rows) + Unclaimed(db, sale, rows)
      == Sum(db.reservations[..rows], RowUnits(sale)) + Overpaid(db, sale, rows)
  {
    if rows > 0 {
      ClaimsAndCharges(db, sale, rows - 1);
      assert db.reservations[..rows] == db.reservations[..rows - 1] + [db.reservations[rows - 1]];
      SumAppend(db.reservations[..rows - 1], db.reservations[rows - 1], RowUnits(sale));
    }
  }

  /**
   At every point of every interleaving a sale is within its stock exactly when the units overpaid are at
   most the units free, in flight, lost, or charged and not held.
   */
  lemma SaleWithinStockExactlyWhen(stock: map<nat, nat>, moves: seq<Move>, sale: nat)
    requires sale in stock
    ensures var s := Moves(Start(stock), moves).state; var rows := |s.db.reservations|;
      var slack := Counter(s, sale) + InFlight(s, sale) + LostWith(s, sale) + Unclaimed(s.db, sale, rows);
      LiveAndPaid(s.db, sale, rows) <= stock[sale] <==> Overpaid(s.db, sale, rows) <= slack
  {
    hide Advance, Constraints, Moves, Start, LiveAndPaid, Overpaid, Unclaimed;
    var s := Moves(Start(stock), moves).state;
    LedgerOverMoves(stock, moves);
    ClaimsAndCharges(s.db, sale, |s.db.reservations|);
    assert s.db.reservations[..|s.db.reservations|] == s.db.reservations;
    assert Accounted(s, sale) == stock[sale];
  }

  // ---------------------------------------------------------------- orders within their rows

  /** A modification goes below an order of its row, or an order is inserted for more than its row has by then. */
  predicate Outgrows(sys: System, move: Move) {
    && Constraints(sys.state.db)
    && match move
       case Insert(w) =>
         && At(sys, w, Fetched) && sys.workers[w].order.reservation < |sys.state.db.reservations|
         && var order := sys.workers[w].order;
            && Constraints(sys.state.db.(orders := sys.state.db.orders + [order]))
            && order.quantity > sys.state.db.reservations[order.reservation].quantity
       case Elsewhere(step) => LowersBelowOrder(sys.state, step)
       case _ => false
  }

  ghost predicate OrdersNow(sys: System) {
    OrdersWithin(sys.state.db)
  }

  lemma SettlingKeepsOrders(db: Db, o: nat, purpose: Purpose)
    requires Constraints(db) && OrdersWithin(db) && o < |db.orders|
    ensures OrdersWithin(SettledTables(db, o, purpose))
  {
    ConstraintsOf(db);
    hide Constraints;
  }

  lemma InsertedWithinExactlyWhen(db: Db, order: Order)
    requires OrdersWithin(db) && order.reservation < |db.reservations|
    ensures OrdersWithin(db.(orders := db.orders + [order]))
      <==> order.quantity <= db.reservations[order.reservation].quantity
  {
    assert (db.orders + [order])[|db.orders|] == order;
  }

  lemma MoveKeepsOrdersExactlyWhen(sys: System, move: Move)
    requires Constraints(sys.state.db) && AllFit(sys) && OrdersNow(sys)
    ensures OrdersNow(Advance(sys, move)) <==> !Outgrows(sys, move)
  {
    match move
    case Elsewhere(step) => StepKeepsWithinExactlyWhen(sys.state, step);
    case Commit(k) =>
      if Commits(sys, k) {
        SettlingKeepsOrders(sys.state.db, sys.settlements[k].order, sys.settlements[k].purpose);
      }
      hide Constraints, SettledTables, OrdersWithin;
    case Insert(w) =>
      if At(sys, w, Fetched) {
        assert Fits(sys.state.db, sys.workers[w]);
        InsertedWithinExactlyWhen(sys.state.db, sys.workers[w].order);
      }
      hide Constraints, OrdersWithin;
    case _ =>
      hide Constraints;
  }

  lemma OrdersAtFirst(stock: map<nat, nat>)
    ensures OrdersNow(Start(stock))
  {
  }

  lemma OutgrowsBreaksOrders(stock: map<nat, nat>, moves: seq<Move>, move: Move)
    ensures BreaksExactlyWhen(Moves(Start(stock), moves), move, OrdersNow, Outgrows)
  {
    FitOverMoves(stock, moves);
    if OrdersNow(Moves(Start(stock), moves)) {
      MoveKeepsOrdersExactlyWhen(Moves(Start(stock), moves), move);
    }
    hide Advance, Constraints, Moves, Start, AllFit, Outgrows, OrdersNow;
  }

  /** Orders are within their rows between all reads and writes exactly when no move outgrows one. */
  lemma OrdersStayWithinBetweenWritesExactlyWhen(stock: map<nat, nat>, moves: seq<Move>)
    ensures Throughout(stock, moves, OrdersNow) <==> Never(stock, moves, Outgrows)
  {
    hide *;
    OrdersAtFirst(stock);
    forall i | 0 <= i < |moves|
      ensures BreaksExactlyWhen(Moves(Start(stock), moves[..i]), moves[i], OrdersNow, Outgrows)
    {
      OutgrowsBreaksOrders(stock, moves[..i], moves[i]);
    }
    ThroughoutExactlyWhen(stock, moves, OrdersNow, Outgrows);
  }

  lemma WithinPaysForNoMoreNow(sys: System, move: Move)
    requires Constraints(sys.state.db) && OrdersNow(sys)
    ensures !PaysForMoreNow(sys, move)
  {
    hide Constraints, SettledTables;
  }

  /** Then no payment is for more than its row has, and live and paid units are within the stock. */
  lemma OrdersWithinNeverOversell(stock: map<nat, nat>, moves: seq<Move>, sale: nat)
    requires sale in stock && Never(stock, moves, Outgrows)
    ensures var s := Moves(Start(stock), moves).state; LiveAndPaid(s.db, sale, |s.db.reservations|) <= stock[sale]
  {
    OrdersStayWithinBetweenWritesExactlyWhen(stock, moves);
    hide Advance, Constraints, Moves, Start, Outgrows, OrdersNow, PaysForMoreNow;
    forall i | 0 <= i < |moves| ensures !PaysForMoreNow(Moves(Start(stock), moves[..i]), moves[i]) {
      assert OrdersNow(Moves(Start(stock), moves[..i]));
      WithinPaysForNoMoreNow(Moves(Start(stock), moves[..i]), moves[i]);
    }
    LiveAndPaidWithinStockBetweenWrites(stock, moves, sale);
  }
}
