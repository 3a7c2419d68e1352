/**
 The order consumer: what any sequence of deliveries amounts to, and what holds between
 its separately committed writes.
 */
module Consumer {
  import opened Tables
  import opened Expiry

  // ---------------------------------------------------------------- one delivery

  predicate Fresh(db: Db, r: nat) {
    r < |db.reservations| && db.reservations[r].status == Pending && !HasOrder(db, r)
  }

  /** The orders and reservations writes of one fresh delivery. */
  function Ordered(db: Db, r: nat): Db
    requires r < |db.reservations|
  {
    WithConfirmed(WithOrder(db, r), r)
  }

  predicate RoomFor(db: Db, r: nat)
    requires r < |db.reservations| && db.reservations[r].sale in db.inventory
  {
    var stock := db.inventory[db.reservations[r].sale];
    stock.reserved + stock.sold + db.reservations[r].quantity <= stock.total
  }

  lemma OrderIsUnique(db: Db, r: nat)
    requires Constraints(db) && r < |db.reservations|
    ensures Constraints(WithOrder(db, r)) <==> !HasOrder(db, r)
  {
    var after := WithOrder(db, r);
    assert forall o :: 0 <= o < |db.orders| ==> after.orders[o] == db.orders[o];
    if o :| 0 <= o < |db.orders| && db.orders[o].reservation == r {
      assert after.orders[o].reservation == after.orders[|db.orders|].reservation;
    }
  }

  /** A delivery acts on fresh reservations only; the third write succeeds exactly when there is room. */
  lemma DeliveryByCases(db: Db, r: nat)
    requires Constraints(db)
    ensures !Fresh(db, r) ==> Deliver(db, r, 3).0 == db
    ensures Fresh(db, r) ==> db.reservations[r].sale in db.inventory
    ensures Fresh(db, r) && RoomFor(db, r) ==>
      Deliver(db, r, 3) == (WithReserved(Ordered(db, r), db.reservations[r].sale, db.reservations[r].quantity), Done)
    ensures Fresh(db, r) && !RoomFor(db, r) ==> Deliver(db, r, 3) == (Ordered(db, r), Refused)
  {
    if r < |db.reservations| {
      OrderIsUnique(db, r);
      assert References(db) && StockChecks(db.inventory);
      var sale := db.reservations[r].sale;
      var synced := WithReserved(Ordered(db, r), sale, db.reservations[r].quantity);
      if Fresh(db, r) {
        assert Constraints(Ordered(db, r)) by { ConfirmingIsAllowed(WithOrder(db, r), r); }
        assert Constraints(synced) <==> StockChecks(synced.inventory);
        assert synced.inventory[sale].Check() <==> RoomFor(db, r);
        assert forall s :: s in db.inventory && s != sale ==> synced.inventory[s] == db.inventory[s];
      }
      hide Constraints;
    }
  }

  // ---------------------------------------------------------------- many deliveries

  function DeliverAll(db: Db, messages: seq<nat>): (after: Db)
    requires Constraints(db)
    ensures Constraints(after)
  {
    if messages == [] then db
    else Deliver(DeliverAll(db, messages[..|messages| - 1]), messages[|messages| - 1], 3).0
  }

  function FreshIn(db: Db, messages: seq<nat>): set<nat> {
    set r | r in messages && Fresh(db, r)
  }

  function Settled(rs: seq<Reservation>, rows: set<nat>): seq<Reservation> {
    seq(|rs|, i requires 0 <= i < |rs| => if i in rows then rs[i].(status := Confirmed) else rs[i])
  }

  /** `after` is `before` with the rows in `rows` confirmed and ordered; reserved quantities aside. */
  ghost predicate Amounts(before: Db, after: Db, rows: set<nat>) {
    && (forall r :: r in rows ==> Fresh(before, r))
    && after.reservations == Settled(before.reservations, rows)
    && (forall o :: o in after.orders <==>
          o in before.orders || exists r :: r in rows && o == OrderFor(before.reservations, r))
    && after.events == before.events
    && after.inventory.Keys == before.inventory.Keys
    && (forall s :: s in before.inventory ==>
          after.inventory[s] == before.inventory[s].(reserved := after.inventory[s].reserved))
  }

  lemma OrderedAmounts(before: Db, db: Db, rows: set<nat>, r: nat)
    requires Amounts(before, db, rows) && Constraints(db)
    ensures Fresh(db, r) <==> Fresh(before, r) && r !in rows
    ensures Fresh(db, r) ==> Amounts(before, Ordered(db, r), rows + {r})
  {
    hide Constraints;
    assert forall o :: HasOrder(db, o) <==> exists x :: x in db.orders && x.reservation == o;
    assert forall o :: HasOrder(before, o) <==> exists x :: x in before.orders && x.reservation == o;
    if Fresh(before, r) && r in rows {
      assert OrderFor(before.reservations, r) in db.orders;
    }
    if r < |before.reservations| && HasOrder(before, r) {
      var o :| 0 <= o < |before.orders| && before.orders[o].reservation == r;
      assert before.orders[o] in db.orders;
    }
    if Fresh(db, r) {
      var after := Ordered(db, r);
      assert OrderFor(db.reservations, r) == OrderFor(before.reservations, r);
      assert after.reservations == Settled(before.reservations, rows + {r});
      assert forall o :: o in after.orders <==> o in db.orders || o == OrderFor(before.reservations, r);
    }
  }

  lemma SyncKeepsAmounts(before: Db, db: Db, rows: set<nat>, sale: nat, quantity: int)
    requires Amounts(before, db, rows)
    ensures Amounts(before, WithReserved(db, sale, quantity), rows)
  {
  }

  lemma NothingAmounts(db: Db)
    ensures Amounts(db, db, {})
  {
    assert Settled(db.reservations, {}) == db.reservations;
  }

  lemma LastMessage(db: Db, messages: seq<nat>)
    requires messages != []
    ensures var front := messages[..|messages| - 1]; var r := messages[|messages| - 1];
      FreshIn(db, messages) == FreshIn(db, front) + if Fresh(db, r) then {r} else {}
  {
    hide Fresh;
    assert messages == messages[..|messages| - 1] + [messages[|messages| - 1]];
  }

  /** Any sequence of deliveries confirms and orders each fresh reservation it names, once. */
  lemma {:induction false} DeliveriesAmount(db: Db, messages: seq<nat>)
    requires Constraints(db)
    ensures Amounts(db, DeliverAll(db, messages), FreshIn(db, messages))
  {
    if messages == [] {
      NothingAmounts(db);
      assert FreshIn(db, messages) == {};
    } else {
      hide Constraints, Amounts, Fresh, Deliver;
      var front, r := messages[..|messages| - 1], messages[|messages| - 1];
      var last := DeliverAll(db, front);
      DeliveriesAmount(db, front);
      LastMessage(db, messages);
      DeliveryByCases(last, r);
      OrderedAmounts(db, last, FreshIn(db, front), r);
      if Fresh(last, r) {
        var row := last.reservations[r];
        SyncKeepsAmounts(db, Ordered(last, r), FreshIn(db, front) + {r}, row.sale, row.quantity);
      } else {
        assert FreshIn(db, messages) == FreshIn(db, front);
      }
    }
  }

  // ---------------------------------------------------------------- the reserved quantity

  predicate AllRoomFor(db: Db, rows: set<nat>) {
    forall s :: s in db.inventory ==>
      db.inventory[s].reserved + db.inventory[s].sold + UnitsOf(db.reservations, rows, s) <= db.inventory[s].total
  }

  /** No delivery of the sequence fails the inventory CHECK. */
  predicate NoCheckFails(db: Db, messages: seq<nat>)
    requires Constraints(db)
  {
    messages == [] ||
    var front, r := messages[..|messages| - 1], messages[|messages| - 1];
    NoCheckFails(db, front) && (Fresh(DeliverAll(db, front), r) ==> Deliver(DeliverAll(db, front), r, 3).1 == Done)
  }

  predicate ReservedAll(before: Db, after: Db, rows: set<nat>) {
    && after.inventory.Keys == before.inventory.Keys
    && forall s :: s in before.inventory ==>
         after.inventory[s] == before.inventory[s].(
           reserved := before.inventory[s].reserved + UnitsOf(before.reservations, rows, s))
  }

  lemma OneMoreUnits(rs: seq<Reservation>, rows: set<nat>, r: nat)
    requires r < |rs| && r !in rows
    ensures forall s ::
      UnitsOf(rs, rows + {r}, s) == UnitsOf(rs, rows, s) + if s == rs[r].sale then rs[r].quantity else 0
  {
    forall s
      ensures UnitsOf(rs, rows + {r}, s) == UnitsOf(rs, rows, s) + if s == rs[r].sale then rs[r].quantity else 0
    {
      UnitsOfUnion(rs, rs, rows, {r}, s);
      UnitsOfOne(rs, r, s);
    }
  }

  lemma OneMoreReserved(before: Db, db: Db, rows: set<nat>, r: nat)
    requires Amounts(before, db, rows) && ReservedAll(before, db, rows)
    requires r < |before.reservations| && r !in rows && before.reservations[r].sale in before.inventory
    ensures r < |db.reservations| && db.reservations[r].sale in db.inventory
    ensures RoomFor(db, r) && AllRoomFor(before, rows) <==> AllRoomFor(before, rows + {r})
    ensures var row := db.reservations[r];
      ReservedAll(before, WithReserved(Ordered(db, r), row.sale, row.quantity), rows + {r})
  {
    var row := before.reservations[r];
    assert db.reservations[r].sale == row.sale && db.reservations[r].quantity == row.quantity;
    OneMoreUnits(before.reservations, rows, r);
    hide UnitsOf, Amounts, Fresh, Settled, OrderFor;
  }

  /** Whether a CHECK fails depends on the reservations named, not on order or repetition. */
  lemma {:induction false} NoCheckFailsExactlyWhen(db: Db, messages: seq<nat>)
    requires Constraints(db)
    ensures NoCheckFails(db, messages) <==> AllRoomFor(db, FreshIn(db, messages))
    ensures NoCheckFails(db, messages) ==> ReservedAll(db, DeliverAll(db, messages), FreshIn(db, messages))
  {
    if messages == [] {
      assert FreshIn(db, messages) == {};
      forall s ensures UnitsOf(db.reservations, {}, s) == 0 {
        UnitsOfNone(db.reservations, s);
      }
      assert forall s :: s in db.inventory ==> db.inventory[s].Check();
    } else {
      assert References(db);
      var front, r := messages[..|messages| - 1], messages[|messages| - 1];
      var last, rows := DeliverAll(db, front), FreshIn(db, front);
      assert DeliverAll(db, messages) == Deliver(last, r, 3).0;
      assert NoCheckFails(db, messages) <==>
        NoCheckFails(db, front) && (Fresh(last, r) ==> Deliver(last, r, 3).1 == Done);
      assert Fresh(db, r) ==> r < |db.reservations| && db.reservations[r].sale in db.inventory;
      NoCheckFailsExactlyWhen(db, front);
      DeliveriesAmount(db, front);
      LastMessage(db, messages);
      hide *;
      DeliveryByCases(last, r);
      OrderedAmounts(db, last, rows, r);
      if Fresh(last, r) {
        assert FreshIn(db, messages) == rows + {r};
        if NoCheckFails(db, front) {
          OneMoreReserved(db, last, rows, r);
        } else {
          assert !AllRoomFor(db, rows);
          if AllRoomFor(db, rows + {r}) {
            LessRoomForMore(db, rows, r);
          }
        }
      } else {
        assert FreshIn(db, messages) == rows;
      }
    }
  }

  lemma LessRoomForMore(db: Db, rows: set<nat>, r: nat)
    requires r !in rows && AllRoomFor(db, rows + {r})
    ensures AllRoomFor(db, rows)
  {
    forall s ensures UnitsOf(db.reservations, rows, s) <= UnitsOf(db.reservations, rows + {r}, s) {
      UnitsOfUnion(db.reservations, db.reservations, rows, {r}, s);
    }
  }

  lemma SameFresh(db: Db, a: seq<nat>, b: seq<nat>)
    requires Ids(a) == Ids(b)
    ensures FreshIn(db, a) == FreshIn(db, b)
  {
    hide Fresh;
    assert forall r :: r in a <==> r in Ids(a);
    assert forall r :: r in b <==> r in Ids(b);
  }

  lemma SameAmounts(before: Db, x: Db, y: Db, rows: set<nat>)
    requires Constraints(x) && Constraints(y) && Amounts(before, x, rows) && Amounts(before, y, rows)
    ensures x.reservations == y.reservations && forall o :: o in x.orders <==> o in y.orders
    ensures OneOrderPerReservation(x.orders) && OneOrderPerReservation(y.orders)
    ensures ReservedAll(before, x, rows) && ReservedAll(before, y, rows) ==> x.inventory == y.inventory
  {
    hide Fresh, OrderFor, Settled, UnitsOf, OneOrderPerReservation;
  }

  /**
   Delivery confluence: two delivery sequences over the same reservations, however ordered and
   repeated, end with the same statuses and the same orders, and agree on whether a CHECK
   failed; when none did they end with the same inventory.
   */
  lemma DeliveryConfluence(db: Db, a: seq<nat>, b: seq<nat>)
    requires Constraints(db) && Ids(a) == Ids(b)
    ensures var x, y := DeliverAll(db, a), DeliverAll(db, b);
      && x.reservations == y.reservations
      && (forall o :: o in x.orders <==> o in y.orders)
      && OneOrderPerReservation(x.orders) && OneOrderPerReservation(y.orders)
      && (NoCheckFails(db, a) <==> NoCheckFails(db, b))
      && (NoCheckFails(db, a) ==> x.inventory == y.inventory)
  {
    hide *;
    SameFresh(db, a, b);
    DeliveriesAmount(db, a);
    DeliveriesAmount(db, b);
    NoCheckFailsExactlyWhen(db, a);
    NoCheckFailsExactlyWhen(db, b);
    SameAmounts(db, DeliverAll(db, a), DeliverAll(db, b), FreshIn(db, a));
  }
}
