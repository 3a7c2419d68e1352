/**
 The request handlers as they run: statement by statement over the two stores. Each is
 proved to have the effect of the protocol steps it stands for.
 */
module Services {
  import opened Tables
  import opened Inventory
  import opened Database
  import opened Protocol

  datatype Reply =
    | Duplicate(row: nat) | AlreadyPurchased | AlreadyReserved | NotAdmitted | NotEnoughInventory
    | Created(row: nat) | NotPersisted | Admissible

  /** The protocol steps of one uninterrupted request; `persisted` is false when the database raises. */
  function Uninterrupted(s: State, user: nat, sale: nat, quantity: Units, key: nat, ttl: Units, persisted: bool)
    : (after: State)
    requires Constraints(s.db)
    ensures Constraints(after.db)
  {
    var f := |s.flights|;
    var reserved := Next(Next(s, Arrive(user, sale, quantity, key)), ReserveUnits(f, ttl));
    Next(Next(reserved, if persisted then Persist(f, ttl) else PersistFails(f)), Compensate(f))
  }

  /** What a request does to the two stores when nothing runs in between. */
  function Requested(db: Db, st: Store, request: nat, user: nat, sale: nat, quantity: Units, key: nat, ttl: Units,
                     persisted: bool, now: int): (Db, Store)
    requires Constraints(db)
  {
    var (held, enough) := TryReserve(st, sale, RequestKey(request), quantity, ttl, now);
    var inserted := WithReservation(db, user, sale, quantity, key, now, ttl);
    if !PassesChecks(db, user, sale, key) || !enough then (db, st)
    else if persisted && Constraints(inserted) then (inserted, held)
    else (db, Release(held, sale, RequestKey(request), quantity, now))
  }

  lemma RequestedIsUninterrupted(s: State, user: nat, sale: nat, quantity: Units, key: nat, ttl: Units, persisted: bool)
    requires Constraints(s.db)
    ensures var after := Uninterrupted(s, user, sale, quantity, key, ttl, persisted);
      && (after.db, after.store)
           == Requested(s.db, s.store, |s.flights|, user, sale, quantity, key, ttl, persisted, s.now)
      && (forall f :: 0 <= f < |s.flights| ==> f < |after.flights| && after.flights[f] == s.flights[f])
      && (forall f :: |s.flights| <= f < |after.flights| ==> after.flights[f].phase == Finished)
  {
    hide Constraints, PassesChecks;
  }

  /** A request that does not end with a new row leaves the tables and every counter as they were. */
  lemma FailedRequestsChangeNothing(db: Db, st: Store, request: nat, user: nat, sale: nat, quantity: Units, key: nat,
                                    ttl: Units, persisted: bool, now: int)
    requires Constraints(db)
    ensures var (after, store) := Requested(db, st, request, user, sale, quantity, key, ttl, persisted, now);
      |after.reservations| == |db.reservations| ==> after == db && store.counters == st.counters
  {
    hide Constraints, PassesChecks;
    var (held, enough) := TryReserve(st, sale, RequestKey(request), quantity, ttl, now);
    if enough {
      assert Release(held, sale, RequestKey(request), quantity, now).counters == st.counters;
    }
  }

  function RowWithKey(rs: seq<Reservation>, key: nat): (row: nat)
    requires exists r :: 0 <= r < |rs| && rs[r].key == key
    ensures row < |rs| && rs[row].key == key
  {
    if rs[|rs| - 1].key == key then |rs| - 1
    else
      var r :| 0 <= r < |rs| && rs[r].key == key;
      assert rs[..|rs| - 1][r].key == key;
      RowWithKey(rs[..|rs| - 1], key)
  }

  /** The transaction of step 7: both inserts, or neither. */
  method InsertReservation(db: Postgres, user: nat, sale: nat, quantity: Units, key: nat, now: int, ttl: int, up: bool)
    returns (ok: bool)
    requires Constraints(db.View())
    modifies db
    ensures ok == (up && Constraints(WithReservation(old(db.View()), user, sale, quantity, key, now, ttl)))
    ensures db.View() ==
      if ok then WithReservation(old(db.View()), user, sale, quantity, key, now, ttl) else old(db.View())
  {
    if !up {
      return false;
    }
    var reservations, events := db.reservations, db.events;
    db.reservations := reservations + [Reservation(user, sale, quantity, key, now + ttl, Pending)];
    db.events := events + [Event(|reservations|, now, false, 0)];
    ok := Constraints(Db(db.reservations, db.orders, db.inventory, db.events));
    if !ok {
      db.reservations, db.events := reservations, events;
    }
  }

  /**
   What a request is told: the first reason to refuse it, or that its row is created. The reasons are a used key,
   a paid order for the sale, a live reservation for it, no admission, too few units, and a failing database.
   */
  ghost predicate RepliesInOrder(rows: seq<Reservation>, orders: seq<Order>, user: nat, sale: nat, key: nat,
                                 admitted: bool, enough: bool, stored: bool, reply: Reply) {
    var keyUsed := exists r :: 0 <= r < |rows| && rows[r].key == key;
    var bought := exists o ::
      0 <= o < |orders| && orders[o].user == user && orders[o].sale == sale && orders[o].status == Paid;
    var holding := exists r ::
      0 <= r < |rows| && rows[r].user == user && rows[r].sale == sale && rows[r].status in {Pending, Confirmed};
    var clear := !keyUsed && !bought && !holding;
    && (reply.Duplicate? <==> keyUsed)
    && (reply.AlreadyPurchased? <==> !keyUsed && bought)
    && (reply.AlreadyReserved? <==> !keyUsed && !bought && holding)
    && (reply.NotAdmitted? <==> clear && !admitted)
    && (reply.NotEnoughInventory? <==> clear && admitted && !enough)
    && (reply.NotPersisted? <==> clear && admitted && enough && !stored)
    && (reply.Created? <==> clear && admitted && enough && stored)
  }

  /** Once the checks are passed, the rest decides; a check that fails decides whatever the rest is. */
  lemma RestDecides(rows: seq<Reservation>, orders: seq<Order>, user: nat, sale: nat, key: nat,
                    admitted: bool, enough: bool, stored: bool, first: Reply, row: nat)
    requires RepliesInOrder(rows, orders, user, sale, key, true, true, true, first)
    ensures first.Created? ==>
      RepliesInOrder(rows, orders, user, sale, key, admitted, enough, stored,
                     if !admitted then NotAdmitted else if !enough then NotEnoughInventory
                     else if !stored then NotPersisted else Created(row))
    ensures !first.Created? ==> RepliesInOrder(rows, orders, user, sale, key, admitted, enough, stored, first)
  {
  }

  lemma PassedRowIsAccepted(db: Db, user: nat, sale: nat, quantity: Units, key: nat, now: int, ttl: int)
    requires Constraints(db) && PassesChecks(db, user, sale, key)
    ensures Constraints(WithReservation(db, user, sale, quantity, key, now, ttl)) <==> sale in db.inventory
  {
    RowIsAcceptedExactlyWhen(db, user, sale, quantity, key, now, ttl);
    hide Constraints;
  }

  /** Steps 1 and 2. `Admissible` goes on to the other steps, and would be created but for them. */
  method FirstChecks(db: Postgres, user: nat, sale: nat, key: nat) returns (reply: Reply)
    ensures RepliesInOrder(db.reservations, db.orders, user, sale, key, true, true, true,
                           if reply.Admissible? then Created(0) else reply)
    ensures !reply.Created?
    ensures reply.Admissible? <==> PassesChecks(db.View(), user, sale, key)
    ensures reply.Duplicate? ==> reply.row < |db.reservations| && db.reservations[reply.row].key == key
  {
    var tables := Db(db.reservations, db.orders, db.inventory, db.events);
    if KeyUsed(tables, key) {
      return Duplicate(RowWithKey(db.reservations, key));
    }
    if HasPaidOrder(tables, user, sale) {
      return AlreadyPurchased;
    }
    return if HasLive(tables, user, sale) then AlreadyReserved else Admissible;
  }

  /** Step 7 with its exception handler. */
  method PersistOrCompensate(db: Postgres, redis: InventoryService, user: nat, sale: nat, quantity: Units, key: nat,
                             ttl: Units, up: bool, request: nat, now: int)
    returns (ok: bool)
    requires Constraints(db.View())
    modifies db, redis
    ensures ok == (up && Constraints(WithReservation(old(db.View()), user, sale, quantity, key, now, ttl)))
    ensures db.View() ==
      if ok then WithReservation(old(db.View()), user, sale, quantity, key, now, ttl) else old(db.View())
    ensures redis.View() ==
      if ok then old(redis.View()) else Release(old(redis.View()), sale, RequestKey(request), quantity, now)
  {
    hide Constraints;
    ok := InsertReservation(db, user, sale, quantity, key, now, ttl, up);
    if !ok {
      redis.ReleaseInventory(sale, RequestKey(request), quantity, now);
    }
  }

  /**
   create_reservation without interruption. `admitted` stands for the sale and queue checks,
   `up` for a database that does not raise. Each refusal has its reply, and only a created row takes units.
   */
  method CreateReservation(db: Postgres, redis: InventoryService, user: nat, sale: nat, quantity: Units, key: nat,
                           admitted: bool, ttl: Units, up: bool, request: nat, now: int)
    returns (reply: Reply)
    requires Constraints(db.View())
    modifies db, redis
    ensures (db.View(), redis.View()) ==
      if admitted then Requested(old(db.View()), old(redis.View()), request, user, sale, quantity, key, ttl, up, now)
      else (old(db.View()), old(redis.View()))
    ensures var counters := old(redis.counters);
      var enough, stored := sale in counters && quantity <= counters[sale], up && sale in db.inventory;
      RepliesInOrder(old(db.reservations), old(db.orders), user, sale, key, admitted, enough, stored, reply)
    ensures reply.Duplicate? ==> reply.row < |db.reservations| && db.reservations[reply.row].key == key
    ensures reply.Created? ==>
      && reply.row == |old(db.reservations)|
      && db.reservations == old(db.reservations) + [Reservation(user, sale, quantity, key, now + ttl, Pending)]
      && db.events == old(db.events) + [Event(reply.row, now, false, 0)]
      && redis.counters == old(redis.counters)[sale := old(redis.counters)[sale] - quantity]
      && redis.holds == old(redis.holds)[RequestKey(request) := Hold(quantity, now + ttl)]
    ensures !reply.Created? ==> db.View() == old(db.View()) && redis.counters == old(redis.counters)
    ensures db.orders == old(db.orders) && db.inventory == old(db.inventory)
  {
    hide Constraints, PassesChecks, RepliesInOrder;
    reply := FirstChecks(db, user, sale, key);
    ghost var stored := up && sale in db.inventory;
    RestDecides(db.reservations, db.orders, user, sale, key, admitted,
                sale in redis.counters && quantity <= redis.counters[sale], stored,
                if reply.Admissible? then Created(0) else reply, |db.reservations|);
    if !reply.Admissible? {
      return;
    }
    PassedRowIsAccepted(db.View(), user, sale, quantity, key, now, ttl);
    if !admitted {
      return NotAdmitted;
    }
    var reserved := redis.TryReserveInventory(sale, RequestKey(request), quantity, ttl, now);
    if !reserved {
      return NotEnoughInventory;
    }
    var persisted := PersistOrCompensate(db, redis, user, sale, quantity, key, ttl, up, request, now);
    if !persisted {
      return NotPersisted;
    }
    return Created(|db.reservations| - 1);
  }

  // ---------------------------------------------------------------- orders

  /** pay_order: the guards in order, then three updates in one transaction. */
  method PayOrder(db: Postgres, o: nat, user: nat, cardOk: bool, now: int) returns (reply: PayReply)
    requires Constraints(db.View())
    modifies db
    ensures reply == PayReplyTo(old(db.View()), o, user, cardOk, now)
    ensures db.View() == Pay(old(db.View()), o, user, cardOk, now)
  {
    var before := Db(db.reservations, db.orders, db.inventory, db.events);
    if o >= |db.orders| || db.orders[o].user != user {
      return OrderNotFound;
    }
    var order := db.orders[o];
    var row := db.reservations[order.reservation];
    if order.status == Paid {
      return AlreadyPaid;
    }
    if row.expiresAt < now {
      return ReservationGone;
    }
    if !cardOk {
      return CardRejected;
    }
    hide Constraints;
    db.orders := db.orders[o := order.(status := Paid)];
    db.reservations := db.reservations[order.reservation := row.(status := Confirmed)];
    var stock := db.inventory[order.sale].Unreserve(order.quantity);
    db.inventory := db.inventory[order.sale := stock.(sold := stock.sold + order.quantity)];
    assert db.View() == PaidTables(before, o);
    if Constraints(Db(db.reservations, db.orders, db.inventory, db.events)) {
      return PaymentDone;
    }
    db.reservations, db.orders, db.inventory := before.reservations, before.orders, before.inventory;
    return Aborted;
  }

  /** cancel_order: one transaction, then a release under the row's id. */
  method CancelOrder(db: Postgres, redis: InventoryService, o: nat, user: nat, ghost s: State, now: int)
    returns (reply: CancelReply)
    requires Constraints(db.View()) && s.db == db.View() && s.store == redis.View() && s.now == now
    modifies db, redis
    ensures reply == CancelReplyTo(old(db.View()), o, user)
    ensures db.View() == Next(s, Step.CancelOrder(o, user)).db
    ensures redis.View() == Next(s, Step.CancelOrder(o, user)).store
  {
    var before := Db(db.reservations, db.orders, db.inventory, db.events);
    if o >= |db.orders| || db.orders[o].user != user {
      return NoSuchOrder;
    }
    var order := db.orders[o];
    var row := db.reservations[order.reservation];
    if order.status == Paid {
      return CannotCancelPaid;
    }
    hide Constraints;
    db.orders := db.orders[o := order.(status := Failed)];
    db.reservations := db.reservations[order.reservation := row.(status := Cancelled)];
    db.inventory := db.inventory[order.sale := db.inventory[order.sale].Unreserve(order.quantity)];
    assert db.View() == CancelledTables(before, o);
    if !Constraints(Db(db.reservations, db.orders, db.inventory, db.events)) {
      db.reservations, db.orders, db.inventory := before.reservations, before.orders, before.inventory;
      return CancelAborted;
    }
    redis.ReleaseInventory(order.sale, RowKey(order.reservation), order.quantity, now);
    return CancelDone;
  }

  // ---------------------------------------------------------------- quantity

  datatype ModifyReply = NotPending | SameQuantity | NotEnough | Modified

  /** modify_reservation_quantity: the counter first, then the row. */
  method ModifyReservationQuantity(db: Postgres, redis: InventoryService, r: nat, user: nat, quantity: Units,
                                   ttl: Units, ghost s: State, now: int)
    returns (reply: ModifyReply)
    requires Constraints(db.View()) && s.db == db.View() && s.store == redis.View() && s.now == now
    modifies db, redis
    ensures db.View() == Next(s, ModifyQuantity(r, user, quantity, ttl)).db
    ensures redis.View() == Next(s, ModifyQuantity(r, user, quantity, ttl)).store
    ensures var rows, counters := old(db.reservations), old(redis.counters);
      if r < |rows| && rows[r].status == Pending && rows[r].user == user then
        var row := rows[r];
        var enough := row.sale in counters && quantity - row.quantity <= counters[row.sale];
        && (reply == SameQuantity <==> quantity == row.quantity)
        && (reply == NotEnough <==> quantity > row.quantity && !enough)
        && (reply == Modified <==> quantity < row.quantity || (quantity > row.quantity && enough))
      else reply == NotPending
    ensures reply == Modified ==>
      var row, counters := old(db.reservations)[r], old(redis.counters);
      var free := if row.sale in counters then counters[row.sale] else 0;
      && db.reservations == old(db.reservations)[r := row.(quantity := quantity, expiresAt := now + ttl)]
      && redis.counters == counters[row.sale := free - (quantity - row.quantity)]
    ensures reply != Modified ==> db.View() == old(db.View()) && redis.View() == old(redis.View())
    ensures db.orders == old(db.orders) && db.inventory == old(db.inventory) && db.events == old(db.events)
  {
    hide Constraints;
    if r >= |db.reservations| || db.reservations[r].status != Pending || db.reservations[r].user != user {
      return NotPending;
    }
    var row := db.reservations[r];
    if quantity == row.quantity {
      return SameQuantity;
    }
    if quantity > row.quantity {
      var ok := redis.TryIncreaseReservation(row.sale, RowKey(r), quantity - row.quantity, now);
      if !ok {
        return NotEnough;
      }
    } else {
      redis.ReleasePartialInventory(row.sale, RowKey(r), row.quantity - quantity, now);
    }
    db.reservations := db.reservations[r := row.(quantity := quantity, expiresAt := now + ttl)];
    return Modified;
  }

  // ---------------------------------------------------------------- the consumer

  /** process_order_message: fetch, then three separately committed writes. */
  method ProcessOrderMessage(db: Postgres, r: nat) returns (outcome: Outcome)
    requires Constraints(db.View())
    modifies db
    ensures (db.View(), outcome) == Deliver(old(db.View()), r, 3)
    ensures Constraints(db.View())
  {
    ghost var before := db.View();
    if r >= |db.reservations| || db.reservations[r].status != Pending {
      return Skipped;
    }
    var row := db.reservations[r];
    assert Deliver(before, r, 3).1 != Skipped;
    hide Constraints;
    db.orders := db.orders + [Order(row.user, row.sale, r, row.quantity, Unpaid)];
    assert db.View() == WithOrder(before, r);
    if !Constraints(Db(db.reservations, db.orders, db.inventory, db.events)) {
      db.orders := db.orders[..|db.orders| - 1];
      assert db.View() == before;
      return Refused;
    }
    if db.reservations[r].status == Pending {
      db.reservations := db.reservations[r := db.reservations[r].(status := Confirmed)];
    }
    assert db.View() == WithConfirmed(WithOrder(before, r), r);
    var inventory := db.inventory;
    if row.sale in inventory {
      var stock := inventory[row.sale];
      db.inventory := inventory[row.sale := stock.(reserved := stock.reserved + row.quantity)];
    }
    assert db.View() == WithReserved(WithConfirmed(WithOrder(before, r), r), row.sale, row.quantity);
    if Constraints(Db(db.reservations, db.orders, db.inventory, db.events)) {
      return Done;
    }
    db.inventory := inventory;
    return Refused;
  }
}
