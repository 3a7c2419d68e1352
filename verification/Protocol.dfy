/**
 The inventory, reservation and order protocol as one state machine over Redis,
 PostgreSQL, the broker and one clock. The stages of a reservation request interleave
 freely with each other and with every other step; each remaining step is atomic.
 A step whose guards fail leaves the state alone.
 */
module Protocol {
  import opened Tables
  import opened Inventory
  import opened Expiry
  import Outbox

  /** Where a reservation request is. `Failing` has lost its transaction; `Lost` will never give its units back. */
  datatype Phase = Checked | Holding | Failing | Finished | Lost

  datatype Flight = Flight(user: nat, sale: nat, quantity: Units, key: nat, phase: Phase)

  /** `broker` and `dead` hold the reservation ids of queued and dead-lettered messages. */
  datatype State = State(
    db: Db, store: Store, flights: seq<Flight>, broker: multiset<nat>, dead: multiset<nat>, now: int)

  datatype Step =
    | Arrive(user: nat, sale: nat, quantity: Units, key: nat)
    | ReserveUnits(flight: nat, ttl: Units)
    | Persist(flight: nat, ttl: Units)
    | PersistFails(flight: nat)
    | Compensate(flight: nat)
    | CrashApi(flight: nat)
    | PublishDirectly(row: nat)
    | ModifyQuantity(row: nat, user: nat, quantity: Units, ttl: Units)
    | PollEvent(event: nat, reply: Outbox.Reply)
    | Consume(row: nat, writes: nat, raised: bool)
    | DeadLetter(row: nat)
    | PayOrder(order: nat, user: nat, cardOk: bool)
    | CancelOrder(order: nat, user: nat)
    | ExpireRows(ids: seq<nat>, active: set<nat>)
    | Tick(seconds: nat)

  // ---------------------------------------------------------------- requests

  /** Steps 1 and 2 of create_reservation: a fresh key, no paid order, no live reservation. */
  predicate PassesChecks(db: Db, user: nat, sale: nat, key: nat) {
    !KeyUsed(db, key) && !HasPaidOrder(db, user, sale) && !HasLive(db, user, sale)
  }

  function Arrived(s: State, user: nat, sale: nat, quantity: Units, key: nat): State {
    if PassesChecks(s.db, user, sale, key) then
      s.(flights := s.flights + [Flight(user, sale, quantity, key, Checked)])
    else s
  }

  /**
   A request is let in exactly when no row has its key, its buyer has no paid order for the sale, and no
   pending or confirmed reservation for it.
   */
  lemma ArrivesExactlyWhen(s: State, user: nat, sale: nat, quantity: Units, key: nat)
    requires Constraints(s.db)
    ensures var rows, orders := s.db.reservations, s.db.orders;
      var keyUsed := exists r :: 0 <= r < |rows| && rows[r].key == key;
      var bought := exists o ::
        0 <= o < |orders| && orders[o].user == user && orders[o].sale == sale && orders[o].status == Paid;
      var holding := exists r ::
        0 <= r < |rows| && rows[r].user == user && rows[r].sale == sale && rows[r].status in {Pending, Confirmed};
      Next(s, Arrive(user, sale, quantity, key)) ==
        if keyUsed || bought || holding then s
        else s.(flights := s.flights + [Flight(user, sale, quantity, key, Checked)])
  {
    hide Constraints;
  }

  predicate In(s: State, f: nat, phase: Phase) {
    f < |s.flights| && s.flights[f].phase == phase
  }

  function Moved(s: State, f: nat, phase: Phase): State
    requires f < |s.flights|
  {
    s.(flights := s.flights[f := s.flights[f].(phase := phase)])
  }

  /** The uuid of a request is fresh: here, its index. */
  function UnitsReserved(s: State, f: nat, ttl: Units): State {
    if !In(s, f, Checked) then s
    else
      var flight := s.flights[f];
      var (store, ok) := TryReserve(s.store, flight.sale, RequestKey(f), flight.quantity, ttl, s.now);
      Moved(s.(store := store), f, if ok then Holding else Finished)
  }

  function RowInserted(s: State, f: nat, ttl: Units): Db
    requires f < |s.flights|
  {
    var flight := s.flights[f];
    WithReservation(s.db, flight.user, flight.sale, flight.quantity, flight.key, s.now, ttl)
  }

  /** Step 7: the reservation and its outbox event commit together, or neither does. */
  function Persisted(s: State, f: nat, ttl: Units): (after: State)
    requires Constraints(s.db)
    ensures Constraints(after.db)
  {
    if !In(s, f, Holding) then s
    else if Constraints(RowInserted(s, f, ttl)) then Moved(s.(db := RowInserted(s, f, ttl)), f, Finished)
    else Moved(s, f, Failing)
  }

  /** The release in the exception handler finds the hold unless its TTL has run out. */
  function Compensated(s: State, f: nat): State {
    if !In(s, f, Failing) then s
    else
      var flight := s.flights[f];
      var store := Release(s.store, flight.sale, RequestKey(f), flight.quantity, s.now);
      Moved(s.(store := store), f, if s.store.Exists(RequestKey(f), s.now) then Finished else Lost)
  }

  // ---------------------------------------------------------------- quantity changes

  lemma QuantityKeepsConstraints(db: Db, r: nat, quantity: Units, expiresAt: int)
    requires Constraints(db) && r < |db.reservations|
    ensures Constraints(WithQuantity(db, r, quantity, expiresAt))
  {
    var after := WithQuantity(db, r, quantity, expiresAt).reservations;
    assert forall i :: 0 <= i < |after| ==>
      after[i].key == db.reservations[i].key && after[i].sale == db.reservations[i].sale
      && after[i].user == db.reservations[i].user && after[i].Live() == db.reservations[i].Live();
  }

  function Modified(s: State, r: nat, user: nat, quantity: Units, ttl: Units): (after: State)
    requires Constraints(s.db)
    ensures Constraints(after.db)
  {
    if r >= |s.db.reservations| || s.db.reservations[r].status != Pending || s.db.reservations[r].user != user then s
    else
      var row := s.db.reservations[r];
      QuantityKeepsConstraints(s.db, r, quantity, s.now + ttl);
      if quantity > row.quantity then
        var (store, ok) := TryIncrease(s.store, row.sale, RowKey(r), quantity - row.quantity, s.now);
        if ok then s.(store := store, db := WithQuantity(s.db, r, quantity, s.now + ttl)) else s
      else if quantity < row.quantity then
        s.(store := ReleasePartial(s.store, row.sale, RowKey(r), row.quantity - quantity, s.now),
           db := WithQuantity(s.db, r, quantity, s.now + ttl))
      else s
  }

  /**
   A pending row gets the quantity its user asks for, and a fresh deadline, exactly when that is less than it
   has or the counter has the units that are missing; the counter pays for the change.
   */
  lemma ModifiesExactlyWhen(s: State, r: nat, user: nat, quantity: Units, ttl: Units)
    requires Constraints(s.db)
    ensures var rows, counters, after := s.db.reservations, s.store.counters, Modified(s, r, user, quantity, ttl);
      if r < |rows| && rows[r].status == Pending && rows[r].user == user && quantity != rows[r].quantity
         && (quantity < rows[r].quantity
             || (rows[r].sale in counters && quantity - rows[r].quantity <= counters[rows[r].sale]))
      then
        var row := rows[r]; var free := if row.sale in counters then counters[row.sale] else 0;
        && after == s.(db := after.db, store := after.store)
        && after.db == s.db.(reservations := rows[r := row.(quantity := quantity, expiresAt := s.now + ttl)])
        && after.store.counters == counters[row.sale := free - (quantity - row.quantity)]
      else after == s
  {
    hide Constraints;
  }

  // ---------------------------------------------------------------- delivery

  function Polled(s: State, e: nat, reply: Outbox.Reply): (after: State)
    requires Constraints(s.db)
    ensures Constraints(after.db)
  {
    if e >= |s.db.events| || s.db.events[e].published then s
    else
      var event := s.db.events[e];
      s.(db := s.db.(events := s.db.events[e := Outbox.Handled(event, reply)]),
         broker := if Outbox.Sent(event, reply) then s.broker + multiset{event.reservation} else s.broker)
  }

  /** Polling every event of a batch, one step each, is one poll of the outbox worker. */
  function PolledAll(s: State, batch: seq<nat>, replies: nat -> Outbox.Reply): (after: State)
    requires Constraints(s.db)
    ensures Constraints(after.db)
  {
    if batch == [] then s
    else
      var n := |batch| - 1;
      Polled(PolledAll(s, batch[..n], replies), batch[n], replies(n))
  }

  /**
   Some sequence of poll steps does to the table what one poll of the worker does, and the broker then
   holds a message for each reservation whose event it accepted.
   */
  lemma {:induction false} PollStepsMakeAPoll(
      s: State, batch: seq<nat>, replies: nat -> Outbox.Reply, accepted: set<nat>)
    requires Constraints(s.db) && Outbox.Ascending(batch)
    requires forall k :: 0 <= k < |batch| ==> batch[k] < |s.db.events| && !s.db.events[batch[k]].published
    requires forall r :: r in accepted ==> r in s.broker
    ensures var after := PolledAll(s, batch, replies);
      var box := Outbox.HandleAll(Outbox.Box(s.db.events, accepted), batch, replies);
      after.db == s.db.(events := box.events) && forall r :: r in box.accepted ==> r in after.broker
  {
    hide Constraints;
    if batch != [] {
      var n := |batch| - 1;
      PollStepsMakeAPoll(s, batch[..n], replies, accepted);
      Outbox.UntouchedUntilReached(Outbox.Box(s.db.events, accepted), batch[..n], replies, batch[n]);
    }
  }

  /** Raising dead-letters the message; dying before the acknowledgement leaves it queued. */
  function Consumed(s: State, r: nat, writes: nat, raised: bool): (after: State)
    requires Constraints(s.db)
    ensures Constraints(after.db)
  {
    if r !in s.broker then s
    else
      var (db, outcome) := Deliver(s.db, r, writes);
      if outcome == Stopped && !raised then s.(db := db)
      else if outcome == Stopped || outcome == Refused then
        s.(db := db, broker := s.broker - multiset{r}, dead := s.dead + multiset{r})
      else s.(db := db, broker := s.broker - multiset{r})
  }

  // ---------------------------------------------------------------- cancelling and expiring

  function OrderCancelled(s: State, o: nat, user: nat): (after: State)
    requires Constraints(s.db)
    ensures Constraints(after.db)
  {
    if CancelReplyTo(s.db, o, user) != CancelDone then s
    else
      var order := s.db.orders[o];
      s.(db := Cancel(s.db, o, user),
         store := Release(s.store, order.sale, RowKey(order.reservation), order.quantity, s.now))
  }

  /** One batch of the expiry worker: any distinct overdue rows, those locked elsewhere left out. */
  function RowsExpired(s: State, ids: seq<nat>, active: set<nat>): (after: State)
    requires Constraints(s.db)
    ensures Constraints(after.db)
  {
    if Rows(s.db, ids) && forall i :: 0 <= i < |ids| ==> Overdue(s.db.reservations[ids[i]], s.now) then
      BulkKeepsConstraints(s.db, Ids(ids));
      s.(db := ExpireBulk(s.db, Ids(ids)),
         store := ReleaseRows(s.store, s.db.reservations, ids, active, s.now))
    else s
  }

  /** What the worker fetches for a batch is a batch of the protocol. */
  lemma FetchedBatchExpires(s: State, active: set<nat>, locked: set<nat>, limit: nat)
    requires Constraints(s.db)
    ensures var ids := Fetched(s.db.reservations, s.now, locked, limit);
      Next(s, ExpireRows(ids, active)) == s.(
        db := ExpireBulk(s.db, Ids(ids)),
        store := ReleaseRows(s.store, s.db.reservations, ids, active, s.now))
  {
    hide Constraints, ExpireBulk, ReleaseRows, Fetched, Rows;
    FetchedAreRows(s.db, s.now, locked, limit);
  }

  // ---------------------------------------------------------------- runs

  function Next(s: State, step: Step): (after: State)
    requires Constraints(s.db)
    ensures Constraints(after.db)
  {
    match step
    case Arrive(user, sale, quantity, key) => Arrived(s, user, sale, quantity, key)
    case ReserveUnits(f, ttl) => UnitsReserved(s, f, ttl)
    case Persist(f, ttl) => Persisted(s, f, ttl)
    case PersistFails(f) => if In(s, f, Holding) then Moved(s, f, Failing) else s
    case Compensate(f) => Compensated(s, f)
    case CrashApi(f) => if In(s, f, Holding) || In(s, f, Failing) then Moved(s, f, Lost) else s
    case PublishDirectly(r) => if r < |s.db.reservations| then s.(broker := s.broker + multiset{r}) else s
    case ModifyQuantity(r, user, quantity, ttl) => Modified(s, r, user, quantity, ttl)
    case PollEvent(e, reply) => Polled(s, e, reply)
    case Consume(r, writes, raised) => Consumed(s, r, writes, raised)
    case DeadLetter(r) =>
      if r in s.broker then s.(broker := s.broker - multiset{r}, dead := s.dead + multiset{r}) else s
    case PayOrder(o, user, cardOk) => s.(db := Pay(s.db, o, user, cardOk, s.now))
    case CancelOrder(o, user) => OrderCancelled(s, o, user)
    case ExpireRows(ids, active) => RowsExpired(s, ids, active)
    case Tick(seconds) => s.(now := s.now + seconds)
  }

  /** Orders and inventory are the same, and only pending rows have been added or changed. */
  predicate PendingRowsOnly(db: Db, after: Db) {
    && after.orders == db.orders && after.inventory == db.inventory && |db.reservations| <= |after.reservations|
    && forall r :: 0 <= r < |after.reservations| ==>
         || (r < |db.reservations| && after.reservations[r] == db.reservations[r])
         || (after.reservations[r].status == Pending
             && (r < |db.reservations| ==> db.reservations[r].status == Pending))
  }

  predicate IsTransaction(step: Step) {
    step.Consume? || step.PayOrder? || step.CancelOrder? || step.ExpireRows?
  }

  /** Only consuming, paying, cancelling and expiring change orders, or rows that are not pending. */
  lemma OtherStepsChangePendingRowsOnly(s: State, step: Step)
    requires Constraints(s.db) && !IsTransaction(step)
    ensures PendingRowsOnly(s.db, Next(s, step).db) && s.now <= Next(s, step).now
  {
    hide Constraints;
  }

  /** New sales: the inventory rows of `create_sale`, and the counters seeded from them. */
  function Init(stock: map<nat, nat>): (s: State)
    ensures Constraints(s.db)
  {
    State(Db([], [], map sale | sale in stock :: Stock(stock[sale], 0, 0), []),
          Store(map sale | sale in stock :: stock[sale], map[]), [], multiset{}, multiset{}, 0)
  }

  function Run(s: State, steps: seq<Step>): (after: State)
    requires Constraints(s.db)
    ensures Constraints(after.db)
  {
    if steps == [] then s else Next(Run(s, steps[..|steps| - 1]), steps[|steps| - 1])
  }

  lemma {:induction false} RunAppend(s: State, a: seq<Step>, b: seq<Step>)
    requires Constraints(s.db)
    ensures Run(s, a + b) == Run(Run(s, a), b)
  {
    hide Next, Constraints;
    if b == [] {
      assert a + b == a;
    } else {
      var n := |b| - 1;
      RunAppend(s, a, b[..n]);
      assert (a + b)[..|a| + n] == a + b[..n];
    }
  }
}
