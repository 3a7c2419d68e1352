/**
 The protocol between reads and writes. The consumer's read and its three writes are separate
 moves, and a payment or a cancellation reads its order in one move and commits in another; all
 of them interleave with each other and with every step of the protocol. Workers may stop for
 good after any move, and what has been read may have changed by the time it is used.
 */
module Interleaving {
  import opened Tables
  import opened Inventory
  import opened Expiry
  import opened Protocol
  import opened Lifecycle

  /** `Fetched` has read a pending row; `Inserted` and `Marked` have written the order, then the status. */
  datatype Stage = Fetched | Inserted | Marked | Ended

  /** A worker carries the order built from the row as it was when fetched. */
  datatype Worker = Worker(order: Order, stage: Stage)

  datatype Purpose = Paying | Cancelling

  /** A request whose guards let it through; it is open until it commits or is refused by a constraint. */
  datatype Settlement = Settlement(order: nat, purpose: Purpose, open: bool)

  datatype System = System(state: State, workers: seq<Worker>, settlements: seq<Settlement>)

  datatype Move =
    | Fetch(row: nat)
    | Insert(worker: nat)
    | Mark(worker: nat)
    | Sync(worker: nat)
    | Die(worker: nat)
    | ReadToPay(order: nat, user: nat, cardOk: bool)
    | ReadToCancel(order: nat, user: nat)
    | Commit(settlement: nat)
    | Elsewhere(step: Step)

  predicate At(sys: System, w: nat, stage: Stage) {
    w < |sys.workers| && sys.workers[w].stage == stage
  }

  function Moved(sys: System, w: nat, stage: Stage, db: Db): System
    requires w < |sys.workers|
  {
    sys.(state := sys.state.(db := db), workers := sys.workers[w := sys.workers[w].(stage := stage)])
  }

  predicate PassesToPay(s: State, o: nat, user: nat, cardOk: bool)
    requires Constraints(s.db)
  {
    var reply := PayReplyTo(s.db, o, user, cardOk, s.now);
    reply == PaymentDone || reply == Aborted
  }

  predicate PassesToCancel(s: State, o: nat, user: nat)
    requires Constraints(s.db)
  {
    var reply := CancelReplyTo(s.db, o, user);
    reply == CancelDone || reply == CancelAborted
  }

  /** The unconditional updates of a payment or a cancellation. */
  function SettledTables(db: Db, o: nat, purpose: Purpose): Db
    requires Constraints(db) && o < |db.orders|
  {
    match purpose
    case Paying => PaidTables(db, o)
    case Cancelling => CancelledTables(db, o)
  }

  /** The settlement commits if it moves now. */
  predicate Commits(sys: System, k: nat)
    requires Constraints(sys.state.db)
  {
    && k < |sys.settlements| && sys.settlements[k].open && sys.settlements[k].order < |sys.state.db.orders|
    && Constraints(SettledTables(sys.state.db, sys.settlements[k].order, sys.settlements[k].purpose))
  }

  predicate CommitsTo(sys: System, k: nat, purpose: Purpose)
    requires Constraints(sys.state.db)
  {
    Commits(sys, k) && sys.settlements[k].purpose == purpose
  }

  /** A cancellation then looks for a hold under the row's id. */
  function Committed(sys: System, k: nat): (after: System)
    requires Constraints(sys.state.db)
    ensures Constraints(after.state.db)
  {
    if k >= |sys.settlements| then sys
    else
      var settled := sys.settlements[k];
      var closed := sys.(settlements := sys.settlements[k := settled.(open := false)]);
      if !Commits(sys, k) then closed
      else
        var s, order := sys.state, sys.state.db.orders[settled.order];
        var released := Release(s.store, order.sale, RowKey(order.reservation), order.quantity, s.now);
        closed.(state := s.(db := SettledTables(s.db, settled.order, settled.purpose),
                            store := if settled.purpose == Cancelling then released else s.store))
  }

  function Advance(sys: System, move: Move): (after: System)
    requires Constraints(sys.state.db)
    ensures Constraints(after.state.db)
  {
    var db := sys.state.db;
    match move
    case Fetch(r) =>
      if r < |db.reservations| && db.reservations[r].status == Pending then
        sys.(workers := sys.workers + [Worker(OrderFor(db.reservations, r), Fetched)])
      else sys
    case Insert(w) =>
      if !At(sys, w, Fetched) then sys
      else
        var ordered := db.(orders := db.orders + [sys.workers[w].order]);
        if Constraints(ordered) then Moved(sys, w, Inserted, ordered) else Moved(sys, w, Ended, db)
    case Mark(w) =>
      if !At(sys, w, Inserted) || sys.workers[w].order.reservation >= |db.reservations| then sys
      else
        ConfirmingIsAllowed(db, sys.workers[w].order.reservation);
        Moved(sys, w, Marked, WithConfirmed(db, sys.workers[w].order.reservation))
    case Sync(w) =>
      if !At(sys, w, Marked) then sys
      else Moved(sys, w, Ended, Attempt(db, WithReserved(db, sys.workers[w].order.sale, sys.workers[w].order.quantity)))
    case Die(w) => if w < |sys.workers| then Moved(sys, w, Ended, db) else sys
    case ReadToPay(o, user, cardOk) =>
      if PassesToPay(sys.state, o, user, cardOk) then
        sys.(settlements := sys.settlements + [Settlement(o, Paying, true)])
      else sys
    case ReadToCancel(o, user) =>
      if PassesToCancel(sys.state, o, user) then
        sys.(settlements := sys.settlements + [Settlement(o, Cancelling, true)])
      else sys
    case Commit(k) => Committed(sys, k)
    case Elsewhere(step) => sys.(state := Next(sys.state, step))
  }

  function Moves(sys: System, moves: seq<Move>): (after: System)
    requires Constraints(sys.state.db)
    ensures Constraints(after.state.db)
  {
    if moves == [] then sys else Advance(Moves(sys, moves[..|moves| - 1]), moves[|moves| - 1])
  }

  function Start(stock: map<nat, nat>): (sys: System)
    ensures Constraints(sys.state.db)
  {
    System(Init(stock), [], [])
  }

  /** The protocol's one-step payment is a read with its commit right behind it. */
  lemma PayOrderIsReadThenCommit(sys: System, o: nat, user: nat, cardOk: bool)
    requires Constraints(sys.state.db)
    ensures var read := Advance(sys, ReadToPay(o, user, cardOk));
      PassesToPay(sys.state, o, user, cardOk) ==>
        Advance(read, Commit(|sys.settlements|)).state == Next(sys.state, PayOrder(o, user, cardOk))
    ensures !PassesToPay(sys.state, o, user, cardOk) ==> Next(sys.state, PayOrder(o, user, cardOk)) == sys.state
  {
    hide Constraints;
  }

  lemma CancelOrderIsReadThenCommit(sys: System, o: nat, user: nat)
    requires Constraints(sys.state.db)
    ensures var read := Advance(sys, ReadToCancel(o, user));
      PassesToCancel(sys.state, o, user) ==>
        Advance(read, Commit(|sys.settlements|)).state == Next(sys.state, CancelOrder(o, user))
    ensures !PassesToCancel(sys.state, o, user) ==> Next(sys.state, CancelOrder(o, user)) == sys.state
  {
    hide Constraints;
  }

  /** The protocol's one-step delivery, cut off after any write, is a fetch with that many writes right behind it. */
  lemma ConsumeIsFetchThenWrites(sys: System, r: nat)
    requires Constraints(sys.state.db)
    ensures var w := |sys.workers|;
      var inserted := Advance(Advance(sys, Fetch(r)), Insert(w));
      var marked := Advance(inserted, Mark(w)); var synced := Advance(marked, Sync(w));
      && inserted.state == sys.state.(db := Deliver(sys.state.db, r, 1).0)
      && marked.state == sys.state.(db := Deliver(sys.state.db, r, 2).0)
      && synced.state == sys.state.(db := Deliver(sys.state.db, r, 3).0)
      && var rows := sys.state.db.reservations;
         synced.workers == sys.workers +
           if r < |rows| && rows[r].status == Pending then [Worker(OrderFor(rows, r), Ended)] else []
  {
    hide Constraints;
  }

  /** A settlement commits once, and a worker that has died writes nothing more. */
  lemma NothingMovesTwice(sys: System, k: nat)
    requires Constraints(sys.state.db)
    ensures var committed := Advance(sys, Commit(k)); Advance(committed, Commit(k)) == committed
    ensures var dead := Advance(sys, Die(k));
      Advance(dead, Insert(k)) == Advance(dead, Mark(k)) == Advance(dead, Sync(k)) == dead
  {
    hide Constraints, SettledTables;
  }

  // ---------------------------------------------------------------- exact conditions over all moves

  ghost predicate Throughout(stock: map<nat, nat>, moves: seq<Move>, good: System -> bool) {
    forall i :: 0 <= i <= |moves| ==> good(Moves(Start(stock), moves[..i]))
  }

  ghost predicate Never(stock: map<nat, nat>, moves: seq<Move>, bad: (System, Move) -> bool) {
    forall i :: 0 <= i < |moves| ==> !bad(Moves(Start(stock), moves[..i]), moves[i])
  }

  ghost predicate BreaksExactlyWhen(sys: System, move: Move, good: System -> bool, bad: (System, Move) -> bool) {
    Constraints(sys.state.db) && (good(sys) ==> (good(Advance(sys, move)) <==> !bad(sys, move)))
  }

  lemma NoMoves(stock: map<nat, nat>)
    ensures Moves(Start(stock), []) == Start(stock)
  {
    hide Advance, Constraints, Start;
  }

  lemma MovesUpTo(stock: map<nat, nat>, moves: seq<Move>, i: nat)
    requires i < |moves|
    ensures Moves(Start(stock), moves[..i + 1]) == Advance(Moves(Start(stock), moves[..i]), moves[i])
  {
    hide Advance, Constraints, Start;
    assert moves[..i + 1][..i] == moves[..i];
  }

  lemma PrefixOfFront<T>(s: seq<T>, i: nat)
    requires i < |s|
    ensures s[..|s| - 1][..i] == s[..i]
  {
  }

  lemma OneMoreMove(stock: map<nat, nat>, moves: seq<Move>, bad: (System, Move) -> bool)
    requires moves != []
    ensures var front, last := moves[..|moves| - 1], moves[|moves| - 1];
      && Moves(Start(stock), moves) == Advance(Moves(Start(stock), front), last)
      && (Never(stock, moves, bad) <==> Never(stock, front, bad) && !bad(Moves(Start(stock), front), last))
  {
    hide Advance, Constraints, Start, Moves;
    assert moves[..|moves|] == moves;
    MovesUpTo(stock, moves, |moves| - 1);
    forall i | 0 <= i < |moves| ensures moves[..|moves| - 1][..i] == moves[..i] {
      PrefixOfFront(moves, i);
    }
  }

  /** What every move of a sequence breaks exactly when it is bad holds throughout exactly when none is. */
  lemma ThroughoutExactlyWhen(stock: map<nat, nat>, moves: seq<Move>, good: System -> bool, bad: (System, Move) -> bool)
    requires good(Start(stock))
    requires forall i :: 0 <= i < |moves| ==> BreaksExactlyWhen(Moves(Start(stock), moves[..i]), moves[i], good, bad)
    ensures Throughout(stock, moves, good) <==> Never(stock, moves, bad)
  {
    hide Advance, Constraints, Start, Moves;
    if Throughout(stock, moves, good) {
      forall i | 0 <= i < |moves| ensures !bad(Moves(Start(stock), moves[..i]), moves[i]) {
        MovesUpTo(stock, moves, i);
        assert BreaksExactlyWhen(Moves(Start(stock), moves[..i]), moves[i], good, bad);
      }
    }
    if Never(stock, moves, bad) {
      GoodUpTo(stock, moves, |moves|, good, bad);
    }
  }

  lemma {:induction false} GoodUpTo(
      stock: map<nat, nat>, moves: seq<Move>, n: nat, good: System -> bool, bad: (System, Move) -> bool)
    requires n <= |moves| && good(Start(stock)) && Never(stock, moves, bad)
    requires forall i :: 0 <= i < |moves| ==> BreaksExactlyWhen(Moves(Start(stock), moves[..i]), moves[i], good, bad)
    ensures forall i :: 0 <= i <= n ==> good(Moves(Start(stock), moves[..i]))
  {
    NoMoves(stock);
    hide Advance, Constraints, Start, Moves;
    if n == 0 {
      assert moves[..0] == [];
    } else {
      GoodUpTo(stock, moves, n - 1, good, bad);
      MovesUpTo(stock, moves, n - 1);
      assert BreaksExactlyWhen(Moves(Start(stock), moves[..n - 1]), moves[n - 1], good, bad);
    }
  }

  // ---------------------------------------------------------------- confirmed implies ordered

  /** A worker past its first write has its order in the table. */
  ghost predicate WritersHaveOrdered(sys: System) {
    forall w :: 0 <= w < |sys.workers| && (sys.workers[w].stage == Inserted || sys.workers[w].stage == Marked) ==>
      HasOrder(sys.state.db, sys.workers[w].order.reservation)
  }

  ghost predicate Kept(sys: System) {
    ConfirmedAreOrdered(sys.state.db) && WritersHaveOrdered(sys)
  }

  /** Orders are never removed, and never change their reservation. */
  ghost predicate OrdersStay(db: Db, after: Db) {
    && |db.orders| <= |after.orders|
    && forall o :: 0 <= o < |db.orders| ==> after.orders[o].reservation == db.orders[o].reservation
  }

  lemma NextKeepsOrders(s: State, step: Step)
    requires Constraints(s.db)
    ensures OrdersStay(s.db, Next(s, step).db)
  {
    hide Constraints, Pay, Cancel, Deliver, ExpireBulk;
    match step
    case Consume(r, writes, _) => TransactionsKeepOrders(s.db, r, 0, true, 0, writes);
    case PayOrder(o, user, cardOk) => TransactionsKeepOrders(s.db, o, user, cardOk, s.now, 0);
    case CancelOrder(o, user) => TransactionsKeepOrders(s.db, o, user, true, 0, 0);
    case ExpireRows(ids, _) => ExpiryKeepsOrders(s.db, Ids(ids));
    case _ =>
  }

  lemma TransactionsKeepOrders(db: Db, id: nat, user: nat, cardOk: bool, now: int, writes: nat)
    requires Constraints(db)
    ensures OrdersStay(db, Pay(db, id, user, cardOk, now)) && OrdersStay(db, Cancel(db, id, user))
    ensures OrdersStay(db, Deliver(db, id, writes).0)
  {
    hide Constraints;
  }

  lemma ExpiryKeepsOrders(db: Db, ids: set<nat>)
    ensures OrdersStay(db, ExpireBulk(db, ids))
  {
  }

  lemma OrdersStayServe(sys: System, after: System)
    requires WritersHaveOrdered(sys) && OrdersStay(sys.state.db, after.state.db) && |sys.workers| <= |after.workers|
    requires forall w :: 0 <= w < |after.workers| ==>
      || (w < |sys.workers| && after.workers[w] == sys.workers[w])
      || after.workers[w].stage == Fetched || after.workers[w].stage == Ended
      || HasOrder(after.state.db, after.workers[w].order.reservation)
    ensures WritersHaveOrdered(after)
  {
    var db, later := sys.state.db, after.state.db;
    forall r | HasOrder(db, r) ensures HasOrder(later, r) {
      var o :| 0 <= o < |db.orders| && db.orders[o].reservation == r;
      assert later.orders[o].reservation == r;
    }
  }

  lemma SettlingServes(db: Db, o: nat, purpose: Purpose)
    requires Constraints(db) && ConfirmedAreOrdered(db) && o < |db.orders|
    ensures var after := SettledTables(db, o, purpose); ConfirmedAreOrdered(after) && OrdersStay(db, after)
  {
    assert References(db);
    hide Constraints;
    SameOrdersServe(db, SettledTables(db, o, purpose));
  }

  lemma StepKeeps(sys: System, move: Move)
    requires Constraints(sys.state.db) && Kept(sys)
    ensures Kept(Advance(sys, move))
  {
    hide Constraints, Next, SettledTables;
    var after := Advance(sys, move);
    match move
    case Elsewhere(step) =>
      NextKeepsOrders(sys.state, step);
      StepKeepsOrdered(sys.state, step);
      OrdersStayServe(sys, after);
    case Insert(w) =>
      if At(after, w, Inserted) && after != sys {
        assert after.state.db.orders[|sys.state.db.orders|].reservation == sys.workers[w].order.reservation;
      }
      OrdersStayServe(sys, after);
      SameOrdersServe(sys.state.db, after.state.db);
    case Mark(w) =>
      assert At(sys, w, Inserted) ==> HasOrder(sys.state.db, sys.workers[w].order.reservation);
      OrdersStayServe(sys, after);
      SameOrdersServe(sys.state.db, after.state.db);
    case Commit(k) =>
      if Commits(sys, k) {
        SettlingServes(sys.state.db, sys.settlements[k].order, sys.settlements[k].purpose);
      }
      OrdersStayServe(sys, after);
    case _ =>
      OrdersStayServe(sys, after);
      SameOrdersServe(sys.state.db, after.state.db);
  }

  /**
   Confirmed implies ordered at every point between the writes: in any interleaving of
   consumers, deaths, redeliveries, late payments and cancellations and all other steps, a
   confirmed reservation has an order, and no reservation has two.
   */
  lemma {:induction false} ConfirmedImpliesOrderedBetweenWrites(stock: map<nat, nat>, moves: seq<Move>)
    ensures var db := Moves(Start(stock), moves).state.db;
      ConfirmedAreOrdered(db) && OneOrderPerReservation(db.orders)
    ensures Kept(Moves(Start(stock), moves))
  {
    assert OneOrderPerReservation(Moves(Start(stock), moves).state.db.orders);
    hide Advance, Constraints;
    if moves != [] {
      ConfirmedImpliesOrderedBetweenWrites(stock, moves[..|moves| - 1]);
      StepKeeps(Moves(Start(stock), moves[..|moves| - 1]), moves[|moves| - 1]);
    }
  }
}
