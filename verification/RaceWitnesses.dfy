/** Interleavings of reads and writes that show which conditions over moves cannot be dropped. */
module RaceWitnesses {
  import opened Sums
  import opened Tables
  import opened Inventory
  import opened Expiry
  import opened Protocol
  import opened OrderLedger
  import opened Oversell
  import opened Interleaving
  import opened BetweenWrites
  import opened Races
  import opened Witnesses

  lemma TakeMove(moves: seq<Move>, move: Move) returns (more: seq<Move>)
    ensures Moves(Start(TWO_UNITS), more) == Advance(Moves(Start(TWO_UNITS), moves), move)
  {
    more := moves + [move];
    hide Advance, Constraints, Start;
    assert more[..|moves|] == moves;
  }

  /** Steps of the protocol are moves, whatever is open meanwhile. */
  lemma {:induction false} TakeSteps(moves: seq<Move>, s: State, steps: seq<Step>) returns (more: seq<Move>)
    requires Constraints(s.db) && Moves(Start(TWO_UNITS), moves).state == s
    ensures Moves(Start(TWO_UNITS), more) == Moves(Start(TWO_UNITS), moves).(state := Run(s, steps))
  {
    hide Next, Constraints, Start, Moves;
    if steps == [] {
      more := moves;
    } else {
      more := TakeSteps(moves, s, steps[..|steps| - 1]);
      more := TakeMove(more, Elsewhere(steps[|steps| - 1]));
    }
  }

  lemma BookNow(moves: seq<Move>, user: nat, quantity: Units, key: nat, ttl: Units) returns (more: seq<Move>)
    requires var s := Moves(Start(TWO_UNITS), moves).state;
      PassesChecks(s.db, user, 0, key) && CanBook(s, 0, quantity)
    ensures var sys := Moves(Start(TWO_UNITS), moves);
      Moves(Start(TWO_UNITS), more) == sys.(state := Booked(sys.state, user, 0, quantity, key, ttl))
  {
    var s := Moves(Start(TWO_UNITS), moves).state;
    assert Run(s, []) == s;
    hide Next, Constraints, Start, Moves, PassesChecks, Finishes, Run, PaysPendingOnly;
    var steps := Book(s, [], user, 0, quantity, key, ttl);
    more := TakeSteps(moves, s, steps);
  }

  lemma OneOrder(os: seq<Order>, f: Order -> int)
    requires |os| == 1
    ensures Sum(os, f) == f(os[0])
  {
    assert os == [] + [os[0]];
    SumAppend([], os[0], f);
  }

  lemma PayRuns(sys: System, o: nat, user: nat, after: Db)
    requires var s := sys.state;
      && Constraints(s.db) && o < |s.db.orders| && s.db.orders[o].user == user && s.db.orders[o].status != Paid
      && s.now <= s.db.reservations[s.db.orders[o].reservation].expiresAt
      && after == PaidTables(s.db, o) && Constraints(after)
    ensures Advance(sys, Elsewhere(PayOrder(o, user, true))) == sys.(state := sys.state.(db := after))
  {
    PaymentRuns(sys.state, o, user, after);
    hide Constraints, PaidTables, Next;
  }

  lemma InsertRuns(sys: System, w: nat)
    requires Constraints(sys.state.db) && At(sys, w, Fetched)
    requires Constraints(sys.state.db.(orders := sys.state.db.orders + [sys.workers[w].order]))
    ensures Advance(sys, Insert(w))
      == Interleaving.Moved(sys, w, Inserted, sys.state.db.(orders := sys.state.db.orders + [sys.workers[w].order]))
  {
    hide Constraints;
  }

  lemma SyncRuns(sys: System, w: nat, after: Db)
    requires Constraints(sys.state.db) && At(sys, w, Marked) && Constraints(after)
    requires after == WithReserved(sys.state.db, sys.workers[w].order.sale, sys.workers[w].order.quantity)
    ensures Advance(sys, Sync(w)) == Interleaving.Moved(sys, w, Ended, after)
  {
    hide Constraints;
  }

  // ---------------------------------------------------------------- a late increment

  // The consumer has confirmed user 1's reservation when its order is paid, and only then counts its
  // units as reserved.

  function LateSystem(row: ReservationStatus, orders: seq<Order>, stock: Stock, workers: seq<Worker>): System {
    System(ShortState([BuyerRow(row)], orders, stock, 1, multiset{0}, 0), workers, [])
  }

  function Late(stage: nat): System
    requires stage <= 5
  {
    var order := Order(1, 0, 0, 1, Unpaid);
    var paid := order.(status := Paid);
    match stage
    case 0 => LateSystem(Pending, [], Stock(2, 0, 0), [])
    case 1 => LateSystem(Pending, [], Stock(2, 0, 0), [Worker(order, Stage.Fetched)])
    case 2 => LateSystem(Pending, [order], Stock(2, 0, 0), [Worker(order, Inserted)])
    case 3 => LateSystem(Confirmed, [order], Stock(2, 0, 0), [Worker(order, Marked)])
    case 4 => LateSystem(Confirmed, [paid], Stock(2, 0, 1), [Worker(order, Marked)])
    case _ => LateSystem(Confirmed, [paid], Stock(2, 1, 1), [Worker(order, Ended)])
  }

  lemma Late1()
    requires Constraints(Late(0).state.db)
    ensures Advance(Late(0), Fetch(0)) == Late(1)
  {
    hide Constraints;
  }

  lemma LateOrderIsAccepted()
    ensures Constraints(Late(2).state.db)
  {
  }

  lemma Late2()
    requires Constraints(Late(1).state.db)
    ensures Advance(Late(1), Insert(0)) == Late(2)
  {
    LateOrderIsAccepted();
    hide Constraints, Advance;
    assert [] + [Order(1, 0, 0, 1, Unpaid)] == [Order(1, 0, 0, 1, Unpaid)];
    InsertRuns(Late(1), 0);
  }

  lemma Late3()
    requires Constraints(Late(2).state.db)
    ensures Advance(Late(2), Mark(0)) == Late(3)
  {
    hide Constraints;
  }

  lemma Late4()
    requires Constraints(Late(3).state.db)
    ensures Advance(Late(3), Elsewhere(PayOrder(0, 1, true))) == Late(4)
  {
    assert Constraints(Late(4).state.db);
    hide Constraints, Advance;
    assert PaidTables(Late(3).state.db, 0) == Late(4).state.db;
    PayRuns(Late(3), 0, 1, Late(4).state.db);
  }

  lemma Late5()
    requires Constraints(Late(4).state.db)
    ensures Advance(Late(4), Sync(0)) == Late(5)
  {
    assert Constraints(Late(5).state.db);
    hide Constraints, Advance;
    assert WithReserved(Late(4).state.db, 0, 1) == Late(5).state.db;
    SyncRuns(Late(4), 0, Late(5).state.db);
  }

  lemma LateIsUnheld()
    ensures Late(5).state.db.inventory[0].reserved == 1
    ensures Sum(Late(5).state.db.orders, HeldUnits(Late(5).state.db.reservations, 0)) == 0
  {
    OneOrder(Late(5).state.db.orders, HeldUnits(Late(5).state.db.reservations, 0));
  }

  /** A payment between the consumer's second and third write leaves a unit reserved that no order holds. */
  lemma LateIncrementOvercounts() returns (moves: seq<Move>)
    ensures var db := Moves(Start(TWO_UNITS), moves).state.db;
      && 0 in db.inventory && db.inventory[0].reserved == 1
      && Sum(db.orders, HeldUnits(db.reservations, 0)) == 0
  {
    NoMoves(TWO_UNITS);
    assert Start(TWO_UNITS) == System(Init(TWO_UNITS), [], []);
    assert 0 in Late(5).state.db.inventory && System(Short(1), [], []) == Late(0);
    hide *;
    Short1();
    moves := BookNow([], 1, 1, 100, 1);
    assert Moves(Start(TWO_UNITS), moves) == Late(0);
    Late1();
    moves := TakeMove(moves, Fetch(0));
    Late2();
    moves := TakeMove(moves, Insert(0));
    Late3();
    moves := TakeMove(moves, Mark(0));
    assert Moves(Start(TWO_UNITS), moves) == Late(3);
    Late4();
    moves := TakeMove(moves, Elsewhere(PayOrder(0, 1, true)));
    Late5();
    moves := TakeMove(moves, Sync(0));
    LateIsUnheld();
  }

  // ---------------------------------------------------------------- a stale order

  // User 1 books both units; after the consumer has read the row, the quantity drops to one. The whole
  // delivery goes on with an order for two: it is paid for when user 2 has taken the unit set free, or
  // it expires, and takes back one unit of the two it has counted.

  function StaleOrder(status: OrderStatus): Order { Order(1, 0, 0, 2, status) }

  function StaleState(row: Reservation, orders: seq<Order>, stock: Stock, free: int, now: int): State {
    HalfState([row], orders, stock, free, map[RequestKey(0) := Hold(2, 60)], [Flight(1, 0, 2, 100, Finished)],
              multiset{0}, multiset{}).(now := now)
  }

  function SharedState(order: Order, stock: Stock): State {
    HalfState([HalfRow(1, Confirmed), OTHER_ROW], [order], stock, 0,
              map[RequestKey(0) := Hold(2, 60), RequestKey(1) := Hold(1, 60)],
              [Flight(1, 0, 2, 100, Finished), Flight(2, 0, 1, 200, Finished)], multiset{0, 1}, multiset{})
  }

  function Stale(stage: nat): System
    requires stage <= 9
  {
    var unpaid := StaleOrder(Unpaid);
    var carried := (stage: Stage) => [Worker(StaleOrder(Unpaid), stage)];
    match stage
    case 0 => System(StaleState(HalfRow(2, Pending), [], Stock(2, 0, 0), 0, 0), [], [])
    case 1 => System(StaleState(HalfRow(2, Pending), [], Stock(2, 0, 0), 0, 0), carried(Stage.Fetched), [])
    case 2 => System(StaleState(HalfRow(1, Pending), [], Stock(2, 0, 0), 1, 0), carried(Stage.Fetched), [])
    case 3 => System(StaleState(HalfRow(1, Pending), [unpaid], Stock(2, 0, 0), 1, 0), carried(Inserted), [])
    case 4 => System(StaleState(HalfRow(1, Confirmed), [unpaid], Stock(2, 0, 0), 1, 0), carried(Marked), [])
    case 5 => System(StaleState(HalfRow(1, Confirmed), [unpaid], Stock(2, 2, 0), 1, 0), carried(Ended), [])
    case 6 => System(SharedState(unpaid, Stock(2, 2, 0)), carried(Ended), [])
    case 7 => System(SharedState(StaleOrder(Paid), Stock(2, 0, 2)), carried(Ended), [])
    case 8 => System(StaleState(HalfRow(1, Confirmed), [unpaid], Stock(2, 2, 0), 1, 61), carried(Ended), [])
    case _ =>
      System(StaleState(HalfRow(1, Expired), [StaleOrder(Failed)], Stock(2, 1, 0), 1, 61), carried(Ended), [])
  }

  lemma Stale0()
    ensures PassesChecks(Init(TWO_UNITS).db, 1, 0, 100) && CanBook(Init(TWO_UNITS), 0, 2)
    ensures Start(TWO_UNITS).(state := Booked(Init(TWO_UNITS), 1, 0, 2, 100, 60)) == Stale(0)
  {
  }

  lemma Stale1()
    requires Constraints(Stale(0).state.db)
    ensures Advance(Stale(0), Fetch(0)) == Stale(1)
  {
    hide Constraints;
  }

  lemma Stale2()
    requires Constraints(Stale(1).state.db)
    ensures Advance(Stale(1), Elsewhere(ModifyQuantity(0, 1, 1, 60))) == Stale(2)
  {
    hide Constraints;
  }

  lemma Stale3()
    requires Constraints(Stale(2).state.db)
    ensures Advance(Stale(2), Insert(0)) == Stale(3)
  {
    assert Constraints(Stale(3).state.db);
    hide Constraints, Advance;
    assert [] + [StaleOrder(Unpaid)] == [StaleOrder(Unpaid)];
    InsertRuns(Stale(2), 0);
  }

  lemma Stale4()
    requires Constraints(Stale(3).state.db)
    ensures Advance(Stale(3), Mark(0)) == Stale(4)
  {
    hide Constraints;
  }

  lemma Stale5()
    requires Constraints(Stale(4).state.db)
    ensures Advance(Stale(4), Sync(0)) == Stale(5)
  {
    assert Constraints(Stale(5).state.db);
    hide Constraints, Advance;
    assert WithReserved(Stale(4).state.db, 0, 2) == Stale(5).state.db;
    SyncRuns(Stale(4), 0, Stale(5).state.db);
  }

  lemma Stale6()
    ensures PassesChecks(Stale(5).state.db, 2, 0, 200) && CanBook(Stale(5).state, 0, 1)
    ensures Stale(5).(state := Booked(Stale(5).state, 2, 0, 1, 200, 60)) == Stale(6)
  {
  }

  lemma Stale7()
    requires Constraints(Stale(6).state.db)
    ensures Advance(Stale(6), Elsewhere(PayOrder(0, 1, true))) == Stale(7)
  {
    assert Constraints(Stale(7).state.db);
    hide Constraints, Advance;
    assert PaidTables(Stale(6).state.db, 0) == Stale(7).state.db;
    PayRuns(Stale(6), 0, 1, Stale(7).state.db);
  }

  lemma Stale8()
    requires Constraints(Stale(5).state.db)
    ensures Advance(Stale(5), Elsewhere(Tick(61))) == Stale(8)
  {
    hide Constraints;
  }

  lemma Stale9()
    requires Constraints(Stale(8).state.db)
    ensures Advance(Stale(8), Elsewhere(ExpireRows([0], {}))) == Stale(9)
  {
    hide Constraints;
    var db := Stale(8).state.db;
    ExpiryRuns(Stale(8).state, 0);
    UnitsOfOne(db.reservations, 0, 0);
    hide UnitsOf, Next;
    assert ExpiredRows(db.reservations, {0}) == Stale(9).state.db.reservations;
    assert FailedOrders(db.orders, {0}) == Stale(9).state.db.orders;
    assert ExpireBulk(db, {0}).inventory == Stale(9).state.db.inventory;
  }

  lemma StaleTakesBackTooLittle()
    requires Constraints(Stale(8).state.db)
    ensures Overcounts(Stale(8), Elsewhere(ExpireRows([0], {})))
  {
    hide Constraints;
    var db := Stale(8).state.db;
    UnitsOfOne(db.reservations, 0, 0);
    OneOrder(db.orders, CountedUnits(db.reservations, {0}, 0));
    hide UnitsOf, Sum;
    assert Awaiting(Stale(8)) == {} && Ids([0]) == {0} && {} + {0} == {0};
    assert TakesBackTooLittle(db, {}, {0});
  }

  lemma StaleClaims()
    ensures |Stale(7).state.db.reservations| == 2 && LiveAndPaid(Stale(7).state.db, 0, 2) == 3 > TWO_UNITS[0]
  {
    var db := Stale(7).state.db;
    OneOrder(db.orders, PaidForRow(0));
    OneOrder(db.orders, PaidForRow(1));
    assert Claim(db, 0) == 2 && Claim(db, 1) == 1;
    assert LiveAndPaid(db, 0, 1) == 2;
  }

  lemma StaleDelivered() returns (moves: seq<Move>)
    ensures Moves(Start(TWO_UNITS), moves) == Stale(5)
  {
    NoMoves(TWO_UNITS);
    assert Start(TWO_UNITS).state == Init(TWO_UNITS);
    hide *;
    Stale0();
    moves := BookNow([], 1, 2, 100, 60);
    assert Moves(Start(TWO_UNITS), moves) == Stale(0);
    Stale1();
    moves := TakeMove(moves, Fetch(0));
    Stale2();
    moves := TakeMove(moves, Elsewhere(ModifyQuantity(0, 1, 1, 60)));
    Stale3();
    moves := TakeMove(moves, Insert(0));
    assert Moves(Start(TWO_UNITS), moves) == Stale(3);
    Stale4();
    moves := TakeMove(moves, Mark(0));
    Stale5();
    moves := TakeMove(moves, Sync(0));
  }

  /** With no delivery cut short, a smaller quantity between the consumer's read and its insert: three units of two. */
  lemma StaleReadOversells() returns (moves: seq<Move>)
    ensures var db := Moves(Start(TWO_UNITS), moves).state.db;
      LiveAndPaid(db, 0, |db.reservations|) > TWO_UNITS[0]
  {
    hide *;
    moves := StaleDelivered();
    Stale6();
    moves := BookNow(moves, 2, 1, 200, 60);
    Stale7();
    moves := TakeMove(moves, Elsewhere(PayOrder(0, 1, true)));
    StaleClaims();
  }

  lemma StaleIsUnheld()
    ensures 0 in Stale(9).state.db.inventory && Stale(9).state.db.inventory[0].reserved == 1
    ensures Sum(Stale(9).state.db.orders, HeldUnits(Stale(9).state.db.reservations, 0)) == 0
  {
    OneOrder(Stale(9).state.db.orders, HeldUnits(Stale(9).state.db.reservations, 0));
  }

  /** The same order unpaid: its expiry takes back fewer units than it drops, and leaves one reserved for nobody. */
  lemma StaleExpiryOvercounts() returns (moves: seq<Move>)
    ensures var sys, expire := Moves(Start(TWO_UNITS), moves), Elsewhere(ExpireRows([0], {}));
      && Overcounts(sys, expire)
      && var db := Advance(sys, expire).state.db;
         && 0 in db.inventory && db.inventory[0].reserved == 1
         && Sum(db.orders, HeldUnits(db.reservations, 0)) == 0
  {
    hide *;
    moves := StaleDelivered();
    Stale8();
    moves := TakeMove(moves, Elsewhere(Tick(61)));
    Stale9();
    StaleTakesBackTooLittle();
    StaleIsUnheld();
  }

  // ---------------------------------------------------------------- settlements that race

  lemma BuyerReady() returns (moves: seq<Move>)
    ensures Moves(Start(TWO_UNITS), moves) == System(Short(2), [], [])
  {
    NoMoves(TWO_UNITS);
    assert Start(TWO_UNITS) == System(Init(TWO_UNITS), [], []);
    hide *;
    var steps := BuyerConfirmed();
    moves := TakeSteps([], Init(TWO_UNITS), steps);
  }

  function Reading(purpose: Purpose): Settlement { Settlement(0, purpose, true) }

  function Closed(purpose: Purpose): Settlement { Settlement(0, purpose, false) }

  const PAID_TWICE := ShortState([BuyerRow(Confirmed)], [Order(1, 0, 0, 1, Paid)], Stock(2, 0, 2), 1, multiset{}, 0)

  /** Both reads pass before either commits. */
  lemma TwoReads()
    requires Constraints(Short(2).db)
    ensures Advance(System(Short(2), [], []), ReadToPay(0, 1, true)) == System(Short(2), [], [Reading(Paying)])
    ensures Advance(System(Short(2), [], [Reading(Paying)]), ReadToPay(0, 1, true))
      == System(Short(2), [], [Reading(Paying), Reading(Paying)])
    ensures Advance(System(Short(2), [], []), ReadToCancel(0, 1)) == System(Short(2), [], [Reading(Cancelling)])
  {
    hide Constraints;
  }

  lemma FirstCommit()
    requires Constraints(Short(2).db)
    ensures Advance(System(Short(2), [], [Reading(Paying), Reading(Paying)]), Commit(0))
      == System(Short(3), [], [Closed(Paying), Reading(Paying)])
  {
    assert Constraints(Short(3).db);
    hide Constraints;
    assert PaidTables(Short(2).db, 0) == Short(3).db;
  }

  lemma SecondCommit()
    requires Constraints(Short(3).db)
    ensures Advance(System(Short(3), [], [Closed(Paying), Reading(Paying)]), Commit(1))
      == System(PAID_TWICE, [], [Closed(Paying), Closed(Paying)])
  {
    assert Constraints(PAID_TWICE.db);
    hide Constraints;
    assert PaidTables(Short(3).db, 0) == PAID_TWICE.db;
  }

  lemma SoldForOne()
    ensures var db := PAID_TWICE.db;
      0 in db.inventory && db.inventory[0].sold == 2 && Sum(db.orders, PaidUnits(0)) == 1
  {
    OneOrder(PAID_TWICE.db.orders, PaidUnits(0));
  }

  /** Two payments of one order that both read it unpaid both commit: two units are sold for one order of one. */
  lemma DoublePaymentSellsTwice() returns (moves: seq<Move>)
    ensures var db := Moves(Start(TWO_UNITS), moves).state.db;
      0 in db.inventory && db.inventory[0].sold == 2 && Sum(db.orders, PaidUnits(0)) == 1
  {
    hide *;
    moves := BuyerReady();
    TwoReads();
    moves := TakeMove(moves, ReadToPay(0, 1, true));
    moves := TakeMove(moves, ReadToPay(0, 1, true));
    FirstCommit();
    moves := TakeMove(moves, Commit(0));
    SecondCommit();
    moves := TakeMove(moves, Commit(1));
    SoldForOne();
  }

  lemma PaidMeanwhile()
    requires Constraints(Short(2).db)
    ensures var sys := System(Short(2), [], [Reading(Cancelling)]);
      Advance(sys, Elsewhere(PayOrder(0, 1, true))) == sys.(state := Short(3))
  {
    Short3();
    hide *;
  }

  lemma LateCancellation()
    requires Constraints(Short(3).db)
    ensures FailsPaidOrder(System(Short(3), [], [Reading(Cancelling)]), Commit(0))
  {
    var failed := ShortState([BuyerRow(Cancelled)], [Order(1, 0, 0, 1, Failed)], Stock(2, 0, 1), 1, multiset{}, 0);
    assert Constraints(failed.db);
    hide Constraints;
    assert CancelledTables(Short(3).db, 0) == failed.db;
  }

  /** A cancellation that read its order unpaid commits after the payment, and fails an order that is paid. */
  lemma LateCancellationFailsPaidOrder() returns (moves: seq<Move>)
    ensures FailsPaidOrder(Moves(Start(TWO_UNITS), moves), Commit(0))
  {
    hide *;
    moves := BuyerReady();
    TwoReads();
    moves := TakeMove(moves, ReadToCancel(0, 1));
    PaidMeanwhile();
    moves := TakeMove(moves, Elsewhere(PayOrder(0, 1, true)));
    LateCancellation();
  }

  const OVERDUE := ShortState(
    [BuyerRow(Confirmed)], [Order(1, 0, 0, 1, Unpaid)], Stock(2, 1, 0), 1, multiset{}, 2)

  const LAPSED := ShortState([BuyerRow(Expired)], [Order(1, 0, 0, 1, Failed)], Stock(2, 0, 0), 1, multiset{}, 2)

  lemma Waits()
    requires Constraints(Short(2).db)
    ensures var sys := System(Short(2), [], [Reading(Paying)]);
      Advance(sys, Elsewhere(Tick(2))) == sys.(state := OVERDUE)
  {
    hide Constraints;
  }

  lemma Lapses()
    requires Constraints(OVERDUE.db)
    ensures var sys := System(OVERDUE, [], [Reading(Paying)]);
      Advance(sys, Elsewhere(ExpireRows([0], {}))) == sys.(state := LAPSED)
  {
    hide Constraints;
    var db := OVERDUE.db;
    ExpiryRuns(OVERDUE, 0);
    UnitsOfOne(db.reservations, 0, 0);
    hide UnitsOf;
    assert ExpiredRows(db.reservations, {0}) == LAPSED.db.reservations;
    assert FailedOrders(db.orders, {0}) == LAPSED.db.orders;
    assert ExpireBulk(db, {0}).inventory == LAPSED.db.inventory;
    hide Next;
  }

  lemma LatePayment()
    requires Constraints(LAPSED.db)
    ensures var sys := System(LAPSED, [], [Reading(Paying)]); var rows := sys.state.db.reservations;
      && RevivesGone(sys, Commit(0))
      && rows != [] && rows[0].status == Expired
      && var after := Advance(sys, Commit(0)).state.db.reservations; after != [] && after[0].Live()
  {
    var paid := ShortState([BuyerRow(Confirmed)], [Order(1, 0, 0, 1, Paid)], Stock(2, 0, 1), 1, multiset{}, 2);
    assert Constraints(paid.db);
    hide Constraints;
    assert PaidTables(LAPSED.db, 0) == paid.db;
  }

  /** A payment that read its deadline in time commits after the expiry, and brings the expired row back. */
  lemma LatePaymentRevivesExpired() returns (moves: seq<Move>)
    ensures var sys := Moves(Start(TWO_UNITS), moves); var rows := sys.state.db.reservations;
      && RevivesGone(sys, Commit(0))
      && rows != [] && rows[0].status == Expired
      && var after := Advance(sys, Commit(0)).state.db.reservations; after != [] && after[0].Live()
  {
    hide *;
    moves := BuyerReady();
    TwoReads();
    moves := TakeMove(moves, ReadToPay(0, 1, true));
    Waits();
    moves := TakeMove(moves, Elsewhere(Tick(2)));
    Lapses();
    moves := TakeMove(moves, Elsewhere(ExpireRows([0], {})));
    LatePayment();
  }
}
