/** Runs of the protocol that show which conditions of the theorems cannot be dropped. */
module Witnesses {
  import opened Sums
  import opened Tables
  import opened Inventory
  import opened Expiry
  import opened Protocol
  import opened Oversell
  import opened Purchases
  import opened Consumer
  import opened OrderLedger

  // ---------------------------------------------------------------- whole requests

  lemma OneMore(s: State, steps: seq<Step>, step: Step)
    requires Constraints(s.db)
    ensures Run(s, steps + [step]) == Next(Run(s, steps), step)
  {
    hide Next, Constraints;
    assert (steps + [step])[..|steps|] == steps;
  }

  lemma FreshRowIsAccepted(db: Db, user: nat, sale: nat, quantity: Units, key: nat, now: int, ttl: int)
    requires Constraints(db) && PassesChecks(db, user, sale, key) && sale in db.inventory
    ensures Constraints(WithReservation(db, user, sale, quantity, key, now, ttl))
  {
  }

  predicate CanBook(s: State, sale: nat, quantity: int) {
    sale in s.db.inventory && sale in s.store.counters && quantity <= s.store.counters[sale]
  }

  /** The state once a request that has passed its checks runs to its end, and its message is published. */
  function Finishes(s: State, f: nat, ttl: Units): State
    requires f < |s.flights| && s.flights[f].sale in s.store.counters
  {
    var flight := s.flights[f];
    State(WithReservation(s.db, flight.user, flight.sale, flight.quantity, flight.key, s.now, ttl),
          Store(s.store.counters[flight.sale := s.store.counters[flight.sale] - flight.quantity],
                s.store.holds[RequestKey(f) := Hold(flight.quantity, s.now + ttl)]),
          s.flights[f := flight.(phase := Finished)],
          s.broker + multiset{|s.db.reservations|}, s.dead, s.now)
  }

  lemma FinishingRuns(s: State, f: nat, ttl: Units)
    requires Constraints(s.db) && In(s, f, Checked) && CanBook(s, s.flights[f].sale, s.flights[f].quantity)
    requires Constraints(RowInserted(s, f, ttl))
    ensures Next(Next(Next(s, ReserveUnits(f, ttl)), Persist(f, ttl)), PublishDirectly(|s.db.reservations|))
      == Finishes(s, f, ttl)
  {
    hide Constraints;
    var reserved := UnitsReserved(s, f, ttl);
    assert reserved.store == Finishes(s, f, ttl).store;
    assert Persisted(reserved, f, ttl).flights == Finishes(s, f, ttl).flights;
  }

  /** The state after a whole such request, run without interruption. */
  function Booked(s: State, user: nat, sale: nat, quantity: Units, key: nat, ttl: Units): State
    requires sale in s.store.counters
  {
    Finishes(s.(flights := s.flights + [Flight(user, sale, quantity, key, Checked)]), |s.flights|, ttl)
  }

  /** No step of the run pays an order that is not pending when it is paid. */
  predicate PaysPendingOnly(i: State, steps: seq<Step>)
    requires Constraints(i.db)
  {
    steps == [] ||
    var front, step := steps[..|steps| - 1], steps[|steps| - 1];
    PaysPendingOnly(i, front) && PaysPending(Run(i, front), step)
  }

  predicate PaysPending(s: State, step: Step) {
    step.PayOrder? ==> step.order < |s.db.orders| && s.db.orders[step.order].status == Unpaid
  }

  lemma Take(i: State, steps: seq<Step>, step: Step) returns (more: seq<Step>)
    requires Constraints(i.db)
    ensures Run(i, more) == Next(Run(i, steps), step)
    ensures PaysPendingOnly(i, steps) && (step.PayOrder? ==> PaysPending(Run(i, steps), step)) ==>
      PaysPendingOnly(i, more)
  {
    OneMore(i, steps, step);
    more := steps + [step];
    hide Constraints, Next;
    assert more[..|steps|] == steps;
  }

  lemma Finish(i: State, steps: seq<Step>, f: nat, ttl: Units) returns (more: seq<Step>)
    requires Constraints(i.db)
    requires var s := Run(i, steps);
      && In(s, f, Checked) && CanBook(s, s.flights[f].sale, s.flights[f].quantity)
      && Constraints(RowInserted(s, f, ttl))
    ensures Run(i, more) == Finishes(Run(i, steps), f, ttl)
    ensures PaysPendingOnly(i, steps) ==> PaysPendingOnly(i, more)
  {
    var s := Run(i, steps);
    FinishingRuns(s, f, ttl);
    hide Next, Constraints, Finishes, Run, RowInserted, PaysPendingOnly;
    more := Take(i, steps, ReserveUnits(f, ttl));
    more := Take(i, more, Persist(f, ttl));
    more := Take(i, more, PublishDirectly(|s.db.reservations|));
  }

  lemma Book(i: State, steps: seq<Step>, user: nat, sale: nat, quantity: Units, key: nat, ttl: Units)
    returns (more: seq<Step>)
    requires Constraints(i.db)
    requires var s := Run(i, steps);
      PassesChecks(s.db, user, sale, key) && CanBook(s, sale, quantity)
    ensures Run(i, more) == Booked(Run(i, steps), user, sale, quantity, key, ttl)
    ensures PaysPendingOnly(i, steps) ==> PaysPendingOnly(i, more)
  {
    var s := Run(i, steps);
    FreshRowIsAccepted(s.db, user, sale, quantity, key, s.now, ttl);
    hide Constraints, PassesChecks, Finishes, Run, PaysPendingOnly;
    more := Take(i, steps, Arrive(user, sale, quantity, key));
    more := Finish(i, more, |s.flights|, ttl);
  }

  lemma PaymentRuns(s: State, o: nat, user: nat, after: Db)
    requires Constraints(s.db) && o < |s.db.orders| && s.db.orders[o].user == user && s.db.orders[o].status != Paid
    requires s.now <= s.db.reservations[s.db.orders[o].reservation].expiresAt
    requires after == PaidTables(s.db, o) && Constraints(after)
    ensures Next(s, PayOrder(o, user, true)) == s.(db := after)
  {
    hide Constraints, PaidTables;
  }

  lemma DeliveryRuns(s: State, r: nat)
    requires Constraints(s.db) && Fresh(s.db, r) && r in s.broker
    requires s.db.reservations[r].sale in s.db.inventory && RoomFor(s.db, r)
    ensures Next(s, Consume(r, 3, false)) == s.(
      db := WithReserved(Ordered(s.db, r), s.db.reservations[r].sale, s.db.reservations[r].quantity),
      broker := s.broker - multiset{r})
  {
    DeliveryByCases(s.db, r);
    hide Constraints, Deliver, WithReserved, Ordered;
  }

  lemma ExpiryRuns(s: State, r: nat)
    requires Constraints(s.db) && r < |s.db.reservations| && Overdue(s.db.reservations[r], s.now)
    ensures Next(s, ExpireRows([r], {})) == s.(db := ExpireBulk(s.db, {r}))
  {
    hide Constraints, ExpireBulk;
    assert Ids([r]) == {r};
    assert [r][..0] == [] && ReleaseRows(s.store, s.db.reservations, [], {}, s.now) == s.store;
  }

  // ---------------------------------------------------------------- what the conditions are for

  const TWO_UNITS: map<nat, nat> := map[0 := 2]

  // First run: user 1 reserves both units, the consumer dies between its first two writes,
  // the quantity drops to one, user 2 takes the unit set free, and user 1 pays for two.

  function HalfRow(quantity: Units, status: ReservationStatus): Reservation {
    Reservation(1, 0, quantity, 100, 60, status)
  }

  const OTHER_ROW := Reservation(2, 0, 1, 200, 60, Pending)

  function HalfState(rows: seq<Reservation>, orders: seq<Order>, stock: Stock, free: int,
                     holds: map<Key, Hold>, flights: seq<Flight>, broker: multiset<nat>, dead: multiset<nat>): State {
    State(Db(rows, orders, map[0 := stock], seq(|rows|, r requires 0 <= r < |rows| => Event(r, 0, false, 0))),
          Store(map[0 := free], holds), flights, broker, dead, 0)
  }

  function Half(stage: nat): State {
    var f0, f1 := Flight(1, 0, 2, 100, Finished), Flight(2, 0, 1, 200, Finished);
    var h0 := map[RequestKey(0) := Hold(2, 60)];
    var h1 := h0[RequestKey(1) := Hold(1, 60)];
    var none: multiset<nat> := multiset{};
    var order := Order(1, 0, 0, 2, Unpaid);
    if stage == 0 then HalfState([HalfRow(2, Pending)], [], Stock(2, 0, 0), 0, h0, [f0], multiset{0}, none)
    else if stage == 1 then HalfState([HalfRow(2, Pending)], [order], Stock(2, 0, 0), 0, h0, [f0], none, multiset{0})
    else if stage == 2 then HalfState([HalfRow(1, Pending)], [order], Stock(2, 0, 0), 1, h0, [f0], none, multiset{0})
    else if stage == 3 then
      HalfState([HalfRow(1, Pending), OTHER_ROW], [order], Stock(2, 0, 0), 0, h1, [f0, f1], multiset{1}, multiset{0})
    else
      HalfState([HalfRow(1, Confirmed), OTHER_ROW], [order.(status := Paid)], Stock(2, 0, 2), 0, h1, [f0, f1],
                multiset{1}, multiset{0})
  }

  lemma Half0()
    ensures PassesChecks(Init(TWO_UNITS).db, 1, 0, 100) && CanBook(Init(TWO_UNITS), 0, 2)
    ensures Booked(Init(TWO_UNITS), 1, 0, 2, 100, 60) == Half(0)
  {
  }

  lemma Half1()
    requires Constraints(Half(0).db)
    ensures Next(Half(0), Consume(0, 1, true)) == Half(1)
  {
  }

  lemma Half2()
    requires Constraints(Half(1).db)
    ensures Next(Half(1), ModifyQuantity(0, 1, 1, 60)) == Half(2)
  {
  }

  lemma Half3()
    ensures PassesChecks(Half(2).db, 2, 0, 200) && CanBook(Half(2), 0, 1)
    ensures Booked(Half(2), 2, 0, 1, 200, 60) == Half(3)
  {
  }

  lemma Half4()
    requires Constraints(Half(3).db)
    ensures Next(Half(3), PayOrder(0, 1, true)) == Half(4)
  {
    assert Constraints(Half(4).db);
    hide Constraints, Next;
    assert PaidTables(Half(3).db, 0) == Half(4).db;
    PaymentRuns(Half(3), 0, 1, Half(4).db);
  }

  lemma HalfClaims()
    ensures |Half(4).db.reservations| == 2 && LiveAndPaid(Half(4).db, 0, 2) == 3 > TWO_UNITS[0]
  {
    assert PaidFor(Half(4).db, 0) == 2;
    assert Claim(Half(4).db, 1) == 1;
    assert LiveAndPaid(Half(4).db, 0, 1) == 2;
  }

  lemma HalfLowered() returns (steps: seq<Step>)
    ensures Run(Init(TWO_UNITS), steps) == Half(2)
  {
    var i := Init(TWO_UNITS);
    assert Run(i, []) == i;
    hide *;
    Half0();
    steps := Book(i, [], 1, 0, 2, 100, 60);
    Half1();
    steps := Take(i, steps, Consume(0, 1, true));
    assert Run(i, steps) == Half(1);
    Half2();
    steps := Take(i, steps, ModifyQuantity(0, 1, 1, 60));
  }

  /** A delivery cut short after its first write, then a smaller quantity, then the payment: three units of two. */
  lemma HalfDeliveryOversells() returns (steps: seq<Step>)
    ensures var s := Run(Init(TWO_UNITS), steps);
      LiveAndPaid(s.db, 0, |s.db.reservations|) > TWO_UNITS[0]
  {
    hide *;
    var i := Init(TWO_UNITS);
    steps := HalfLowered();
    Half3();
    steps := Book(i, steps, 2, 0, 1, 200, 60);
    Half4();
    steps := Take(i, steps, PayOrder(0, 1, true));
    assert Run(i, steps) == Half(4);
    HalfClaims();
  }

  // Second run: user 1 reserves, cancels, reserves again and pays; the paid reservation expires, and
  // the cancelled order, whose deadline is later, is paid as well.

  function TwiceState(rows: seq<Reservation>, orders: seq<Order>, stock: Stock, free: int,
                      broker: multiset<nat>, now: int): State {
    var first, second := Flight(1, 0, 1, 100, Finished), Flight(1, 0, 1, 101, Finished);
    var holds := map[RequestKey(0) := Hold(1, 10)];
    State(Db(rows, orders, map[0 := stock], seq(|rows|, r requires 0 <= r < |rows| => Event(r, 0, false, 0))),
          Store(map[0 := free], if |rows| < 2 then holds else holds[RequestKey(1) := Hold(1, 1)]),
          if |rows| < 2 then [first] else [first, second], broker, multiset{}, now)
  }

  function FirstRow(status: ReservationStatus): Reservation { Reservation(1, 0, 1, 100, 10, status) }

  function SecondRow(status: ReservationStatus): Reservation { Reservation(1, 0, 1, 101, 1, status) }

  function Twice(stage: nat): State
    requires stage <= 8
  {
    var none: multiset<nat> := multiset{};
    var o0, o1 := Order(1, 0, 0, 1, Unpaid), Order(1, 0, 1, 1, Unpaid);
    var failed, paid := o0.(status := Failed), o1.(status := Paid);
    match stage
    case 0 => TwiceState([FirstRow(Pending)], [], Stock(2, 0, 0), 1, multiset{0}, 0)
    case 1 => TwiceState([FirstRow(Confirmed)], [o0], Stock(2, 1, 0), 1, none, 0)
    case 2 => TwiceState([FirstRow(Cancelled)], [failed], Stock(2, 0, 0), 1, none, 0)
    case 3 => TwiceState([FirstRow(Cancelled), SecondRow(Pending)], [failed], Stock(2, 0, 0), 0, multiset{1}, 0)
    case 4 => TwiceState([FirstRow(Cancelled), SecondRow(Confirmed)], [failed, o1], Stock(2, 1, 0), 0, none, 0)
    case 5 => TwiceState([FirstRow(Cancelled), SecondRow(Confirmed)], [failed, paid], Stock(2, 0, 1), 0, none, 0)
    case 6 => TwiceState([FirstRow(Cancelled), SecondRow(Confirmed)], [failed, paid], Stock(2, 0, 1), 0, none, 2)
    case 7 => TwiceState([FirstRow(Cancelled), SecondRow(Expired)], [failed, paid], Stock(2, 0, 1), 0, none, 2)
    case _ =>
      TwiceState([FirstRow(Confirmed), SecondRow(Expired)], [o0.(status := Paid), paid], Stock(2, 0, 2), 0, none, 2)
  }

  lemma Twice0()
    ensures PassesChecks(Init(TWO_UNITS).db, 1, 0, 100) && CanBook(Init(TWO_UNITS), 0, 1)
    ensures Booked(Init(TWO_UNITS), 1, 0, 1, 100, 10) == Twice(0)
  {
  }

  lemma Twice1()
    requires Constraints(Twice(0).db)
    ensures Next(Twice(0), Consume(0, 3, false)) == Twice(1)
  {
    hide Constraints, Next;
    DeliveryRuns(Twice(0), 0);
  }

  lemma Twice2()
    requires Constraints(Twice(1).db)
    ensures Next(Twice(1), CancelOrder(0, 1)) == Twice(2)
  {
  }

  lemma Twice3()
    ensures PassesChecks(Twice(2).db, 1, 0, 101) && CanBook(Twice(2), 0, 1)
    ensures Booked(Twice(2), 1, 0, 1, 101, 1) == Twice(3)
  {
  }

  lemma Twice4()
    requires Constraints(Twice(3).db)
    ensures Next(Twice(3), Consume(1, 3, false)) == Twice(4)
  {
    hide Constraints, Next;
    DeliveryRuns(Twice(3), 1);
  }

  lemma Twice5()
    requires Constraints(Twice(4).db)
    ensures Next(Twice(4), PayOrder(1, 1, true)) == Twice(5)
  {
    assert Constraints(Twice(5).db);
    hide Constraints, Next;
    assert PaidTables(Twice(4).db, 1) == Twice(5).db;
    PaymentRuns(Twice(4), 1, 1, Twice(5).db);
  }

  lemma Twice6()
    requires Constraints(Twice(5).db)
    ensures Next(Twice(5), Tick(2)) == Twice(6)
  {
  }

  lemma Twice7()
    requires Constraints(Twice(6).db)
    ensures Next(Twice(6), ExpireRows([1], {})) == Twice(7)
  {
    hide Constraints;
    var db := Twice(6).db;
    ExpiryRuns(Twice(6), 1);
    UnitsOfOne(db.reservations, 1, 0);
    hide UnitsOf;
    assert ExpiredRows(db.reservations, {1}) == Twice(7).db.reservations;
    assert FailedOrders(db.orders, {1}) == Twice(7).db.orders;
    assert ExpireBulk(db, {1}).inventory == Twice(7).db.inventory;
  }

  lemma Twice8()
    requires Constraints(Twice(7).db)
    ensures Next(Twice(7), PayOrder(0, 1, true)) == Twice(8)
  {
    assert Constraints(Twice(8).db);
    hide Constraints, Next;
    assert PaidTables(Twice(7).db, 0) == Twice(8).db;
    PaymentRuns(Twice(7), 0, 1, Twice(8).db);
  }

  /** Paying an order that was cancelled brings its reservation back, and buys a second time. */
  lemma CancelledOrderBuysTwice() returns (steps: seq<Step>)
    ensures !AtMostOnePaid(Run(Init(TWO_UNITS), steps).db)
  {
    var i := Init(TWO_UNITS);
    Twice0();
    Twice3();
    assert Run(i, []) == i;
    assert !AtMostOnePaid(Twice(8).db) by {
      var orders := Twice(8).db.orders;
      assert orders[0].status == Paid && orders[1].status == Paid;
    }
    hide *;
    steps := Book(i, [], 1, 0, 1, 100, 10);
    assert Run(i, steps) == Twice(0);
    Twice1();
    steps := Take(i, steps, Consume(0, 3, false));
    assert Run(i, steps) == Twice(1);
    Twice2();
    steps := Take(i, steps, CancelOrder(0, 1));
    assert Run(i, steps) == Twice(2);
    steps := Book(i, steps, 1, 0, 1, 101, 1);
    assert Run(i, steps) == Twice(3);
    Twice4();
    steps := Take(i, steps, Consume(1, 3, false));
    assert Run(i, steps) == Twice(4);
    Twice5();
    steps := Take(i, steps, PayOrder(1, 1, true));
    assert Run(i, steps) == Twice(5);
    Twice6();
    steps := Take(i, steps, Tick(2));
    assert Run(i, steps) == Twice(6);
    Twice7();
    steps := Take(i, steps, ExpireRows([1], {}));
    assert Run(i, steps) == Twice(7);
    Twice8();
    steps := Take(i, steps, PayOrder(0, 1, true));
    assert Run(i, steps) == Twice(8);
  }

  // Third run: user 1 sends two requests. The first passes its checks and then waits, while the second
  // is booked and paid, and its paid reservation expires; then the first runs to its end and is paid too.

  function SlowState(phase: Phase, rows: seq<Reservation>, orders: seq<Order>, stock: Stock, free: int,
                     broker: multiset<nat>, now: int): State {
    var slow, quick := Flight(1, 0, 1, 101, phase), Flight(1, 0, 1, 100, Finished);
    var holds := map[RequestKey(1) := Hold(1, 1)];
    var events := seq(|rows|, r requires 0 <= r < |rows| => Event(r, if r == 0 then 0 else 2, false, 0));
    State(Db(rows, orders, map[0 := stock], events),
          Store(map[0 := free], if |rows| < 2 then holds else holds[RequestKey(0) := Hold(1, 12)]),
          [slow, quick], broker, multiset{}, now)
  }

  function QuickRow(status: ReservationStatus): Reservation { Reservation(1, 0, 1, 100, 1, status) }

  function SlowRow(status: ReservationStatus): Reservation { Reservation(1, 0, 1, 101, 12, status) }

  function Slow(stage: nat): State
    requires 1 <= stage <= 8
  {
    var none: multiset<nat> := multiset{};
    var o0, o1 := Order(1, 0, 0, 1, Unpaid), Order(1, 0, 1, 1, Unpaid);
    var paid := o0.(status := Paid);
    match stage
    case 1 => SlowState(Checked, [QuickRow(Pending)], [], Stock(2, 0, 0), 1, multiset{0}, 0)
    case 2 => SlowState(Checked, [QuickRow(Confirmed)], [o0], Stock(2, 1, 0), 1, none, 0)
    case 3 => SlowState(Checked, [QuickRow(Confirmed)], [paid], Stock(2, 0, 1), 1, none, 0)
    case 4 => SlowState(Checked, [QuickRow(Confirmed)], [paid], Stock(2, 0, 1), 1, none, 2)
    case 5 => SlowState(Checked, [QuickRow(Expired)], [paid], Stock(2, 0, 1), 1, none, 2)
    case 6 => SlowState(Finished, [QuickRow(Expired), SlowRow(Pending)], [paid], Stock(2, 0, 1), 0, multiset{1}, 2)
    case 7 => SlowState(Finished, [QuickRow(Expired), SlowRow(Confirmed)], [paid, o1], Stock(2, 1, 1), 0, none, 2)
    case _ =>
      SlowState(Finished, [QuickRow(Expired), SlowRow(Confirmed)], [paid, o1.(status := Paid)], Stock(2, 0, 2),
                0, none, 2)
  }

  function Waiting(): State {
    Init(TWO_UNITS).(flights := [Flight(1, 0, 1, 101, Checked)])
  }

  lemma Slow1()
    ensures Next(Init(TWO_UNITS), Arrive(1, 0, 1, 101)) == Waiting()
    ensures PassesChecks(Waiting().db, 1, 0, 100) && CanBook(Waiting(), 0, 1)
    ensures Booked(Waiting(), 1, 0, 1, 100, 1) == Slow(1)
  {
  }

  lemma Slow2()
    requires Constraints(Slow(1).db)
    ensures Next(Slow(1), Consume(0, 3, false)) == Slow(2)
  {
    hide Constraints, Next;
    DeliveryRuns(Slow(1), 0);
  }

  lemma Slow3()
    requires Constraints(Slow(2).db)
    ensures Next(Slow(2), PayOrder(0, 1, true)) == Slow(3)
    ensures PaysPending(Slow(2), PayOrder(0, 1, true))
  {
    assert Constraints(Slow(3).db);
    hide Constraints, Next;
    assert PaidTables(Slow(2).db, 0) == Slow(3).db;
    PaymentRuns(Slow(2), 0, 1, Slow(3).db);
  }

  lemma Slow4()
    requires Constraints(Slow(3).db)
    ensures Next(Slow(3), Tick(2)) == Slow(4)
  {
  }

  lemma Slow5()
    requires Constraints(Slow(4).db)
    ensures Next(Slow(4), ExpireRows([0], {})) == Slow(5)
  {
    hide Constraints;
    var db := Slow(4).db;
    ExpiryRuns(Slow(4), 0);
    UnitsOfOne(db.reservations, 0, 0);
    hide UnitsOf;
    assert ExpiredRows(db.reservations, {0}) == Slow(5).db.reservations;
    assert FailedOrders(db.orders, {0}) == Slow(5).db.orders;
    assert ExpireBulk(db, {0}).inventory == Slow(5).db.inventory;
  }

  lemma Slow6()
    ensures In(Slow(5), 0, Checked) && CanBook(Slow(5), Slow(5).flights[0].sale, Slow(5).flights[0].quantity)
    ensures Constraints(RowInserted(Slow(5), 0, 10)) && Finishes(Slow(5), 0, 10) == Slow(6)
  {
  }

  lemma Slow7()
    requires Constraints(Slow(6).db)
    ensures Next(Slow(6), Consume(1, 3, false)) == Slow(7)
  {
    hide Constraints, Next;
    DeliveryRuns(Slow(6), 1);
  }

  lemma Slow8()
    requires Constraints(Slow(7).db)
    ensures Next(Slow(7), PayOrder(1, 1, true)) == Slow(8)
    ensures PaysPending(Slow(7), PayOrder(1, 1, true))
  {
    assert Constraints(Slow(8).db);
    hide Constraints, Next;
    assert PaidTables(Slow(7).db, 1) == Slow(8).db;
    PaymentRuns(Slow(7), 1, 1, Slow(8).db);
  }

  lemma QuickOnePaid() returns (steps: seq<Step>)
    ensures Run(Init(TWO_UNITS), steps) == Slow(5) && PaysPendingOnly(Init(TWO_UNITS), steps)
  {
    var i := Init(TWO_UNITS);
    assert Run(i, []) == i && PaysPendingOnly(i, []);
    hide *;
    Slow1();
    steps := Take(i, [], Arrive(1, 0, 1, 101));
    steps := Book(i, steps, 1, 0, 1, 100, 1);
    assert Run(i, steps) == Slow(1);
    Slow2();
    steps := Take(i, steps, Consume(0, 3, false));
    Slow3();
    steps := Take(i, steps, PayOrder(0, 1, true));
    assert Run(i, steps) == Slow(3);
    Slow4();
    steps := Take(i, steps, Tick(2));
    Slow5();
    steps := Take(i, steps, ExpireRows([0], {}));
  }

  /** Paying pending orders only is not enough: a request that outlasts a paid reservation buys a second time. */
  lemma SlowRequestBuysTwice() returns (steps: seq<Step>)
    ensures PaysPendingOnly(Init(TWO_UNITS), steps)
    ensures !AtMostOnePaid(Run(Init(TWO_UNITS), steps).db)
  {
    hide *;
    var i := Init(TWO_UNITS);
    steps := QuickOnePaid();
    Slow6();
    steps := Finish(i, steps, 0, 10);
    assert Run(i, steps) == Slow(6);
    Slow7();
    steps := Take(i, steps, Consume(1, 3, false));
    Slow8();
    steps := Take(i, steps, PayOrder(1, 1, true));
    assert Run(i, steps) == Slow(8);
    SlowPaidTwice();
  }

  lemma SlowPaidTwice()
    ensures !AtMostOnePaid(Slow(8).db)
  {
    var orders := Slow(8).db.orders;
    assert orders[0].status == Paid && orders[1].status == Paid;
  }

  // Fourth run: user 1 books and pays, user 2 books and is confirmed, and the paid reservation expires:
  // its units are subtracted a second time, and those of user 2 are no longer counted.

  function ShortState(rows: seq<Reservation>, orders: seq<Order>, stock: Stock, free: int,
                      broker: multiset<nat>, now: int): State {
    var first, second := Flight(1, 0, 1, 100, Finished), Flight(2, 0, 1, 200, Finished);
    var holds := map[RequestKey(0) := Hold(1, 1)];
    State(Db(rows, orders, map[0 := stock], seq(|rows|, r requires 0 <= r < |rows| => Event(r, 0, false, 0))),
          Store(map[0 := free], if |rows| < 2 then holds else holds[RequestKey(1) := Hold(1, 10)]),
          if |rows| < 2 then [first] else [first, second], broker, multiset{}, now)
  }

  function BuyerRow(status: ReservationStatus): Reservation { Reservation(1, 0, 1, 100, 1, status) }

  function HolderRow(status: ReservationStatus): Reservation { Reservation(2, 0, 1, 200, 10, status) }

  function Short(stage: nat): State
    requires 1 <= stage <= 7
  {
    var none: multiset<nat> := multiset{};
    var paid, held := Order(1, 0, 0, 1, Paid), Order(2, 0, 1, 1, Unpaid);
    match stage
    case 1 => ShortState([BuyerRow(Pending)], [], Stock(2, 0, 0), 1, multiset{0}, 0)
    case 2 => ShortState([BuyerRow(Confirmed)], [paid.(status := Unpaid)], Stock(2, 1, 0), 1, none, 0)
    case 3 => ShortState([BuyerRow(Confirmed)], [paid], Stock(2, 0, 1), 1, none, 0)
    case 4 => ShortState([BuyerRow(Confirmed), HolderRow(Pending)], [paid], Stock(2, 0, 1), 0, multiset{1}, 0)
    case 5 => ShortState([BuyerRow(Confirmed), HolderRow(Confirmed)], [paid, held], Stock(2, 1, 1), 0, none, 0)
    case 6 => ShortState([BuyerRow(Confirmed), HolderRow(Confirmed)], [paid, held], Stock(2, 1, 1), 0, none, 2)
    case _ => ShortState([BuyerRow(Expired), HolderRow(Confirmed)], [paid, held], Stock(2, 0, 1), 0, none, 2)
  }

  lemma Short1()
    ensures PassesChecks(Init(TWO_UNITS).db, 1, 0, 100) && CanBook(Init(TWO_UNITS), 0, 1)
    ensures Booked(Init(TWO_UNITS), 1, 0, 1, 100, 1) == Short(1)
  {
  }

  lemma Short2()
    requires Constraints(Short(1).db)
    ensures Next(Short(1), Consume(0, 3, false)) == Short(2)
  {
    hide Constraints, Next;
    DeliveryRuns(Short(1), 0);
  }

  lemma Short3()
    requires Constraints(Short(2).db)
    ensures Next(Short(2), PayOrder(0, 1, true)) == Short(3)
  {
    assert Constraints(Short(3).db);
    hide Constraints, Next;
    assert PaidTables(Short(2).db, 0) == Short(3).db;
    PaymentRuns(Short(2), 0, 1, Short(3).db);
  }

  lemma Short4()
    ensures PassesChecks(Short(3).db, 2, 0, 200) && CanBook(Short(3), 0, 1)
    ensures Booked(Short(3), 2, 0, 1, 200, 10) == Short(4)
  {
  }

  lemma Short5()
    requires Constraints(Short(4).db)
    ensures Next(Short(4), Consume(1, 3, false)) == Short(5)
  {
    hide Constraints, Next;
    DeliveryRuns(Short(4), 1);
  }

  lemma Short6()
    requires Constraints(Short(5).db)
    ensures Next(Short(5), Tick(2)) == Short(6)
  {
  }

  lemma Short7()
    requires Constraints(Short(6).db)
    ensures Next(Short(6), ExpireRows([0], {})) == Short(7)
  {
    hide Constraints;
    var db := Short(6).db;
    ExpiryRuns(Short(6), 0);
    UnitsOfOne(db.reservations, 0, 0);
    hide UnitsOf;
    assert ExpiredRows(db.reservations, {0}) == Short(7).db.reservations;
    assert FailedOrders(db.orders, {0}) == Short(7).db.orders;
    assert ExpireBulk(db, {0}).inventory == Short(7).db.inventory;
  }

  lemma ShortIsInexact()
    ensures Short(7).db.inventory[0].reserved == 0
    ensures Sum(Short(7).db.orders, HeldUnits(Short(7).db.reservations, 0)) == 1
  {
    var db := Short(7).db;
    var f := HeldUnits(db.reservations, 0);
    assert db.orders == [db.orders[0]] + [db.orders[1]] && [db.orders[0]] == [] + [db.orders[0]];
    SumAppend([], db.orders[0], f);
    SumAppend([db.orders[0]], db.orders[1], f);
  }

  /** User 1 has booked one unit, and the order is confirmed. */
  lemma BuyerConfirmed() returns (steps: seq<Step>)
    ensures Run(Init(TWO_UNITS), steps) == Short(2)
  {
    var i := Init(TWO_UNITS);
    assert Run(i, []) == i;
    hide *;
    Short1();
    steps := Book(i, [], 1, 0, 1, 100, 1);
    assert Run(i, steps) == Short(1);
    Short2();
    steps := Take(i, steps, Consume(0, 3, false));
  }

  /** Expiring a paid reservation leaves reserved_quantity below the units the consumer has counted. */
  lemma PaidExpiryUndercounts() returns (steps: seq<Step>)
    ensures var db := Run(Init(TWO_UNITS), steps).db;
      && 0 in db.inventory && db.inventory[0].reserved == 0
      && Sum(db.orders, HeldUnits(db.reservations, 0)) == 1
  {
    var i := Init(TWO_UNITS);
    assert 0 in Short(7).db.inventory;
    hide *;
    steps := BuyerConfirmed();
    Short3();
    steps := Take(i, steps, PayOrder(0, 1, true));
    assert Run(i, steps) == Short(3);
    Short4();
    steps := Book(i, steps, 2, 0, 1, 200, 10);
    Short5();
    steps := Take(i, steps, Consume(1, 3, false));
    assert Run(i, steps) == Short(5);
    Short6();
    steps := Take(i, steps, Tick(2));
    Short7();
    steps := Take(i, steps, ExpireRows([0], {}));
    assert Run(i, steps) == Short(7);
    ShortIsInexact();
  }
}
