/**
 The PostgreSQL side of the system: the reservations, orders, inventory and outbox
 tables, their constraints, and what each transaction does to them.

 Rows are never deleted, so a row's generated id is its index in its table.
 */
module Tables {
  type Units = q: int | 1 <= q witness 1

  datatype ReservationStatus = Pending | Confirmed | Expired | Cancelled

  datatype Reservation = Reservation(
    user: nat, sale: nat, quantity: Units, key: nat, expiresAt: int, status: ReservationStatus)
  {
    /** The rows covered by the partial unique index. */
    predicate Live() {
      status == Pending || status == Confirmed
    }
  }

  /** `Unpaid` is the database's order status 'pending'. */
  datatype OrderStatus = Unpaid | Paid | Failed | Refunded

  datatype Order = Order(user: nat, sale: nat, reservation: nat, quantity: Units, status: OrderStatus)

  datatype Stock = Stock(total: int, reserved: int, sold: int) {
    /** The three CHECK constraints of the inventory table. */
    predicate Check() {
      0 <= reserved && 0 <= sold && reserved + sold <= total
    }

    /** GREATEST(0, reserved_quantity - q) */
    function Unreserve(q: int): Stock {
      this.(reserved := if reserved < q then 0 else reserved - q)
    }
  }

  /** An outbox row; `reservation` is its aggregate_id. */
  datatype Event = Event(reservation: nat, createdAt: int, published: bool, retries: nat)

  datatype Db = Db(
    reservations: seq<Reservation>,
    orders: seq<Order>,
    inventory: map<nat, Stock>,
    events: seq<Event>)

  // ---------------------------------------------------------------- constraints

  /** uq_one_active_reservation_per_user_sale */
  predicate OneLivePerUserAndSale(rs: seq<Reservation>) {
    forall i, j :: 0 <= i < j < |rs| && rs[i].Live() && rs[j].Live() && rs[i].user == rs[j].user ==>
      rs[i].sale != rs[j].sale
  }

  predicate DistinctKeys(rs: seq<Reservation>) {
    forall i, j :: 0 <= i < j < |rs| ==> rs[i].key != rs[j].key
  }

  predicate OneOrderPerReservation(os: seq<Order>) {
    forall i, j :: 0 <= i < j < |os| ==> os[i].reservation != os[j].reservation
  }

  predicate References(db: Db) {
    && (forall i :: 0 <= i < |db.reservations| ==> db.reservations[i].sale in db.inventory)
    && (forall i :: 0 <= i < |db.orders| ==>
          db.orders[i].reservation < |db.reservations| && db.orders[i].sale in db.inventory)
  }

  predicate StockChecks(inventory: map<nat, Stock>) {
    forall s :: s in inventory ==> inventory[s].Check()
  }

  predicate Constraints(db: Db) {
    && References(db)
    && OneLivePerUserAndSale(db.reservations)
    && DistinctKeys(db.reservations)
    && OneOrderPerReservation(db.orders)
    && StockChecks(db.inventory)
  }

  lemma ConstraintsOf(db: Db)
    requires Constraints(db)
    ensures References(db) && OneOrderPerReservation(db.orders) && StockChecks(db.inventory)
  {
  }

  /** A transaction that breaks a constraint leaves the tables as they were. */
  function Attempt(before: Db, after: Db): (db: Db)
    requires Constraints(before)
    ensures Constraints(db)
  {
    if Constraints(after) then after else before
  }

  // ---------------------------------------------------------------- reservations

  /** INSERT INTO reservations and INSERT INTO outbox_events of one transaction. */
  function WithReservation(db: Db, user: nat, sale: nat, quantity: Units, key: nat, now: int, ttl: int): Db {
    db.(reservations := db.reservations + [Reservation(user, sale, quantity, key, now + ttl, Pending)],
        events := db.events + [Event(|db.reservations|, now, false, 0)])
  }

  /**
   A row is accepted exactly when its sale is listed, its key is new, and its buyer has no other live row
   for the sale.
   */
  lemma RowIsAcceptedExactlyWhen(db: Db, user: nat, sale: nat, quantity: Units, key: nat, now: int, ttl: int)
    requires Constraints(db)
    ensures Constraints(WithReservation(db, user, sale, quantity, key, now, ttl)) <==>
      && sale in db.inventory
      && (forall r :: 0 <= r < |db.reservations| ==> db.reservations[r].key != key)
      && !(exists r :: 0 <= r < |db.reservations| && db.reservations[r].user == user && db.reservations[r].sale == sale
             && (db.reservations[r].status == Pending || db.reservations[r].status == Confirmed))
  {
    var n, after := |db.reservations|, WithReservation(db, user, sale, quantity, key, now, ttl);
    var rows := after.reservations;
    assert rows[n].key == key && rows[n].user == user && rows[n].sale == sale && rows[n].Live();
    assert forall r :: 0 <= r < n ==> rows[r] == db.reservations[r];
    if Constraints(after) {
      assert forall r :: 0 <= r < n ==> rows[r].key != rows[n].key;
      assert forall r :: 0 <= r < n && rows[r].Live() && rows[r].user == user ==> rows[r].sale != rows[n].sale;
    }
  }

  /** update_reservation_quantity: only a pending row is updated. */
  function WithQuantity(db: Db, r: nat, quantity: Units, expiresAt: int): Db
    requires r < |db.reservations|
  {
    if db.reservations[r].status == Pending then
      db.(reservations := db.reservations[r := db.reservations[r].(quantity := quantity, expiresAt := expiresAt)])
    else
      db
  }

  predicate HasOrder(db: Db, r: nat) {
    exists o :: 0 <= o < |db.orders| && db.orders[o].reservation == r
  }

  predicate HasPaidOrder(db: Db, user: nat, sale: nat) {
    exists o :: 0 <= o < |db.orders| && db.orders[o].user == user && db.orders[o].sale == sale
      && db.orders[o].status == Paid
  }

  predicate HasLive(db: Db, user: nat, sale: nat) {
    exists r :: 0 <= r < |db.reservations| && db.reservations[r].user == user && db.reservations[r].sale == sale
      && db.reservations[r].Live()
  }

  predicate KeyUsed(db: Db, key: nat) {
    exists r :: 0 <= r < |db.reservations| && db.reservations[r].key == key
  }

  // ---------------------------------------------------------------- the consumer's three writes

  function OrderFor(rs: seq<Reservation>, r: nat): Order
    requires r < |rs|
  {
    Order(rs[r].user, rs[r].sale, r, rs[r].quantity, Unpaid)
  }

  function WithOrder(db: Db, r: nat): Db
    requires r < |db.reservations|
  {
    db.(orders := db.orders + [OrderFor(db.reservations, r)])
  }

  function WithConfirmed(db: Db, r: nat): Db
    requires r < |db.reservations|
  {
    if db.reservations[r].status == Pending then
      db.(reservations := db.reservations[r := db.reservations[r].(status := Confirmed)])
    else
      db
  }

  /** Confirming a pending row trips no constraint. */
  lemma ConfirmingIsAllowed(db: Db, r: nat)
    requires Constraints(db) && r < |db.reservations|
    ensures Constraints(WithConfirmed(db, r))
  {
    var after := WithConfirmed(db, r).reservations;
    assert forall i :: 0 <= i < |after| ==>
      after[i].key == db.reservations[i].key && after[i].sale == db.reservations[i].sale
      && after[i].user == db.reservations[i].user && after[i].Live() == db.reservations[i].Live();
  }

  function WithReserved(db: Db, sale: nat, quantity: int): Db {
    if sale in db.inventory then
      var stock := db.inventory[sale];
      db.(inventory := db.inventory[sale := stock.(reserved := stock.reserved + quantity)])
    else
      db
  }

  /** How handling one message ends: `Refused` is an exception raised by a table constraint. */
  datatype Outcome = Skipped | Stopped | Refused | Done

  /**
   One delivery, cut off after `writes` of the three separately committed writes.
   Three or more writes are a complete delivery.
   */
  function Deliver(db: Db, r: nat, writes: nat): (result: (Db, Outcome))
    requires Constraints(db)
    ensures Constraints(result.0)
  {
    if r >= |db.reservations| || db.reservations[r].status != Pending then (db, Skipped)
    else if writes == 0 then (db, Stopped)
    else
      var ordered := WithOrder(db, r);
      if !Constraints(ordered) then (db, Refused)
      else if writes == 1 then (ordered, Stopped)
      else
        var confirmed := WithConfirmed(ordered, r);
        if writes == 2 then (confirmed, Stopped)
        else
          var synced := WithReserved(confirmed, db.reservations[r].sale, db.reservations[r].quantity);
          if Constraints(synced) then (synced, Done) else (confirmed, Refused)
  }

  // ---------------------------------------------------------------- paying and cancelling

  datatype PayReply = OrderNotFound | AlreadyPaid | ReservationGone | CardRejected | Aborted | PaymentDone

  function PaidTables(db: Db, o: nat): Db
    requires Constraints(db) && o < |db.orders|
  {
    var order := db.orders[o];
    var row := db.reservations[order.reservation];
    var stock := db.inventory[order.sale].Unreserve(order.quantity);
    db.(orders := db.orders[o := order.(status := Paid)],
        reservations := db.reservations[order.reservation := row.(status := Confirmed)],
        inventory := db.inventory[order.sale := stock.(sold := stock.sold + order.quantity)])
  }

  function PayReplyTo(db: Db, o: nat, user: nat, cardOk: bool, now: int): PayReply
    requires Constraints(db)
  {
    if o >= |db.orders| || db.orders[o].user != user then OrderNotFound
    else if db.orders[o].status == Paid then AlreadyPaid
    else if db.reservations[db.orders[o].reservation].expiresAt < now then ReservationGone
    else if !cardOk then CardRejected
    else if Constraints(PaidTables(db, o)) then PaymentDone
    else Aborted
  }

  function Pay(db: Db, o: nat, user: nat, cardOk: bool, now: int): (after: Db)
    requires Constraints(db)
    ensures Constraints(after)
  {
    if PayReplyTo(db, o, user, cardOk, now) == PaymentDone then PaidTables(db, o) else db
  }

  datatype CancelReply = NoSuchOrder | CannotCancelPaid | CancelAborted | CancelDone

  function CancelledTables(db: Db, o: nat): Db
    requires Constraints(db) && o < |db.orders|
  {
    var order := db.orders[o];
    var row := db.reservations[order.reservation];
    db.(orders := db.orders[o := order.(status := Failed)],
        reservations := db.reservations[order.reservation := row.(status := Cancelled)],
        inventory := db.inventory[order.sale := db.inventory[order.sale].Unreserve(order.quantity)])
  }

  function CancelReplyTo(db: Db, o: nat, user: nat): CancelReply
    requires Constraints(db)
  {
    if o >= |db.orders| || db.orders[o].user != user then NoSuchOrder
    else if db.orders[o].status == Paid then CannotCancelPaid
    else if Constraints(CancelledTables(db, o)) then CancelDone
    else CancelAborted
  }

  function Cancel(db: Db, o: nat, user: nat): (after: Db)
    requires Constraints(db)
    ensures Constraints(after)
  {
    if CancelReplyTo(db, o, user) == CancelDone then CancelledTables(db, o) else db
  }

  /** A cancellation that passes its guards never trips a constraint. */
  lemma CancelNeverAborts(db: Db, o: nat, user: nat)
    requires Constraints(db)
    ensures CancelReplyTo(db, o, user) != CancelAborted
  {
    if o < |db.orders| {
      var after := CancelledTables(db, o);
      assert forall i :: 0 <= i < |db.reservations| && after.reservations[i].Live() ==>
        db.reservations[i] == after.reservations[i];
      assert forall i :: 0 <= i < |db.reservations| ==>
        db.reservations[i].key == after.reservations[i].key && db.reservations[i].sale == after.reservations[i].sale;
    }
  }

  /** An accepted payment is aborted exactly when reviving its row meets another live row, or stock is overdrawn. */
  lemma PayAbortsExactlyWhen(db: Db, o: nat, user: nat, now: int)
    requires Constraints(db) && o < |db.orders| && db.orders[o].user == user && db.orders[o].status != Paid
    requires now <= db.reservations[db.orders[o].reservation].expiresAt
    ensures var order := db.orders[o]; var row := db.reservations[order.reservation];
      var stock := db.inventory[order.sale];
      PayReplyTo(db, o, user, true, now) == Aborted <==>
        || !stock.Unreserve(order.quantity).(sold := stock.sold + order.quantity).Check()
        || exists r :: 0 <= r < |db.reservations| && r != order.reservation && db.reservations[r].Live()
             && db.reservations[r].user == row.user && db.reservations[r].sale == row.sale
  {
    var order := db.orders[o];
    var row := db.reservations[order.reservation];
    var after := PaidTables(db, o);
    assert forall i :: 0 <= i < |db.reservations| && i != order.reservation ==>
      db.reservations[i] == after.reservations[i];
    assert after.inventory[order.sale] ==
      db.inventory[order.sale].Unreserve(order.quantity).(sold := db.inventory[order.sale].sold + order.quantity);
    assert DistinctKeys(after.reservations) by {
      assert forall i :: 0 <= i < |db.reservations| ==> db.reservations[i].key == after.reservations[i].key;
    }
    assert References(after) by {
      assert forall i :: 0 <= i < |db.reservations| ==> db.reservations[i].sale == after.reservations[i].sale;
    }
    if r :| 0 <= r < |db.reservations| && r != order.reservation && db.reservations[r].Live()
            && db.reservations[r].user == row.user && db.reservations[r].sale == row.sale {
      assert after.reservations[r].Live() && after.reservations[order.reservation].Live();
      assert !OneLivePerUserAndSale(after.reservations);
    } else {
      assert OneLivePerUserAndSale(after.reservations);
    }
  }

  /** Another row of the same buyer for the same sale is pending or confirmed. */
  predicate OtherLive(db: Db, r: nat)
    requires r < |db.reservations|
  {
    exists x :: 0 <= x < |db.reservations| && x != r && db.reservations[x].user == db.reservations[r].user
      && db.reservations[x].sale == db.reservations[r].sale
      && (db.reservations[x].status == Pending || db.reservations[x].status == Confirmed)
  }

  /** What a payment is refused for, the first reason that applies. */
  lemma PayRefusesExactlyWhen(db: Db, o: nat, user: nat, cardOk: bool, now: int)
    requires Constraints(db)
    ensures var reply := PayReplyTo(db, o, user, cardOk, now); var own := o < |db.orders| && db.orders[o].user == user;
      && (reply == OrderNotFound <==> !own)
      && (own ==>
            var paid, late := db.orders[o].status == Paid, db.reservations[db.orders[o].reservation].expiresAt < now;
            && (reply == AlreadyPaid <==> paid)
            && (reply == ReservationGone <==> !paid && late)
            && (reply == CardRejected <==> !paid && !late && !cardOk)
            && (reply == Aborted || reply == PaymentDone <==> !paid && !late && cardOk))
  {
    hide Constraints, PaidTables;
  }

  /**
   A payment marks its order paid, confirms the order's row and moves the units from reserved to sold, if the
   order is the payer's and not paid, the deadline has not passed, the card is good, units not reserved are left
   in the stock and no other row of the buyer for the sale is live. Otherwise it changes nothing.
   */
  lemma PaymentChangesExactly(db: Db, o: nat, user: nat, cardOk: bool, now: int)
    requires Constraints(db)
    ensures var after := Pay(db, o, user, cardOk, now);
      if o < |db.orders| && db.orders[o].user == user && db.orders[o].status != Paid && cardOk
         && now <= db.reservations[db.orders[o].reservation].expiresAt
         && !OtherLive(db, db.orders[o].reservation)
         && var order := db.orders[o]; var stock := db.inventory[order.sale];
            order.quantity <= stock.reserved || stock.sold + order.quantity <= stock.total
      then
        var order := db.orders[o]; var stock := db.inventory[order.sale];
        var reserved := if stock.reserved < order.quantity then 0 else stock.reserved - order.quantity;
        && after.orders == db.orders[o := order.(status := Paid)]
        && after.reservations
             == db.reservations[order.reservation := db.reservations[order.reservation].(status := Confirmed)]
        && after.inventory == db.inventory[order.sale := Stock(stock.total, reserved, stock.sold + order.quantity)]
        && after.events == db.events
      else after == db
  {
    assert References(db) && StockChecks(db.inventory);
    if o < |db.orders| && db.orders[o].user == user && db.orders[o].status != Paid
       && now <= db.reservations[db.orders[o].reservation].expiresAt {
      PayAbortsExactlyWhen(db, o, user, now);
      assert db.inventory[db.orders[o].sale].Check();
    }
    hide Constraints, References, StockChecks;
  }

  /** What a cancellation is refused for. */
  lemma CancelRefusesExactlyWhen(db: Db, o: nat, user: nat)
    requires Constraints(db)
    ensures var reply := CancelReplyTo(db, o, user); var own := o < |db.orders| && db.orders[o].user == user;
      && (reply == NoSuchOrder <==> !own)
      && (reply == CannotCancelPaid <==> own && db.orders[o].status == Paid)
      && (reply == CancelDone <==> own && db.orders[o].status != Paid)
  {
    CancelNeverAborts(db, o, user);
    hide Constraints, CancelledTables;
  }

  /** A cancellation fails its own user's unpaid order, cancels the row and unreserves the units, or changes nothing. */
  lemma CancellationChangesExactly(db: Db, o: nat, user: nat)
    requires Constraints(db)
    ensures var after := Cancel(db, o, user);
      if o < |db.orders| && db.orders[o].user == user && db.orders[o].status != Paid then
        var order := db.orders[o]; var stock := db.inventory[order.sale];
        var reserved := if stock.reserved < order.quantity then 0 else stock.reserved - order.quantity;
        && after.orders == db.orders[o := order.(status := Failed)]
        && after.reservations
             == db.reservations[order.reservation := db.reservations[order.reservation].(status := Cancelled)]
        && after.inventory == db.inventory[order.sale := Stock(stock.total, reserved, stock.sold)]
        && after.events == db.events
      else after == db
  {
    ConstraintsOf(db);
    CancelRefusesExactlyWhen(db, o, user);
    hide Constraints;
  }
}
