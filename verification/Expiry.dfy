/**
 Expiring overdue reservations: the row-by-row meaning, the bulk statements that
 replace it, and the batch loop of the expiry worker.
 */
module Expiry {
  import opened Sums
  import opened Tables
  import opened Inventory
  import opened Database

  // ---------------------------------------------------------------- row by row

  function FailUnlessPaid(o: Order): Order {
    if o.status == Paid then o else o.(status := Failed)
  }

  /** Expires one row: its own status, its order, and its units in the inventory row of its sale. */
  function ExpireOne(db: Db, id: nat): Db
    requires id < |db.reservations| && db.reservations[id].sale in db.inventory
  {
    var row := db.reservations[id];
    db.(reservations := db.reservations[id := row.(status := Expired)],
        orders := seq(|db.orders|, i requires 0 <= i < |db.orders| =>
          if db.orders[i].reservation == id then FailUnlessPaid(db.orders[i]) else db.orders[i]),
        inventory := db.inventory[row.sale := db.inventory[row.sale].Unreserve(row.quantity)])
  }

  function Ids(ids: seq<nat>): set<nat> {
    set id | id in ids
  }

  predicate Rows(db: Db, ids: seq<nat>) {
    && (forall i :: 0 <= i < |ids| ==> ids[i] < |db.reservations|)
    && Distinct(ids)
  }

  function ExpireInTurn(db: Db, ids: seq<nat>): (after: Db)
    requires References(db) && Rows(db, ids)
    ensures References(after) && |after.reservations| == |db.reservations|
  {
    if ids == [] then db else ExpireOne(ExpireInTurn(db, ids[..|ids| - 1]), ids[|ids| - 1])
  }

  // ---------------------------------------------------------------- in bulk

  /** The units of the listed rows that belong to one sale. */
  function UnitsOf(rs: seq<Reservation>, ids: set<nat>, sale: nat): nat {
    if rs == [] then 0 else
      var n := |rs| - 1;
      UnitsOf(rs[..n], ids, sale) + if n in ids && rs[n].sale == sale then rs[n].quantity else 0
  }

  function ExpiredRows(rs: seq<Reservation>, ids: set<nat>): seq<Reservation> {
    seq(|rs|, i requires 0 <= i < |rs| => if i in ids then rs[i].(status := Expired) else rs[i])
  }

  function FailedOrders(os: seq<Order>, ids: set<nat>): seq<Order> {
    seq(|os|, i requires 0 <= i < |os| => if os[i].reservation in ids then FailUnlessPaid(os[i]) else os[i])
  }

  /** One UPDATE of reservations, one of orders, one of inventory per sale. */
  function ExpireBulk(db: Db, ids: set<nat>): Db {
    db.(reservations := ExpiredRows(db.reservations, ids),
        orders := FailedOrders(db.orders, ids),
        inventory := map s | s in db.inventory :: db.inventory[s].Unreserve(UnitsOf(db.reservations, ids, s)))
  }

  /**
   The rows in `ids` are expired, and no other row has changed; their orders have failed unless they are paid,
   and no other order has changed.
   */
  ghost predicate ExpiredExactly(db: Db, after: Db, ids: set<nat>) {
    && |after.reservations| == |db.reservations| && |after.orders| == |db.orders|
    && (forall r :: 0 <= r < |db.reservations| ==>
          after.reservations[r] == if r in ids then db.reservations[r].(status := Expired) else db.reservations[r])
    && (forall o :: 0 <= o < |db.orders| ==>
          after.orders[o] == if db.orders[o].reservation in ids && db.orders[o].status != Paid then
            db.orders[o].(status := Failed) else db.orders[o])
  }

  lemma BulkExpiresExactly(db: Db, ids: set<nat>)
    ensures ExpiredExactly(db, ExpireBulk(db, ids), ids)
  {
    hide UnitsOf;
  }

  lemma {:induction false} UnitsOfUnion(
      rs: seq<Reservation>, after: seq<Reservation>, a: set<nat>, b: set<nat>, sale: nat)
    requires a !! b && |after| == |rs|
    requires forall i :: 0 <= i < |rs| ==> after[i].sale == rs[i].sale && after[i].quantity == rs[i].quantity
    ensures UnitsOf(rs, a + b, sale) == UnitsOf(rs, a, sale) + UnitsOf(after, b, sale)
  {
    if rs != [] {
      UnitsOfUnion(rs[..|rs| - 1], after[..|rs| - 1], a, b, sale);
    }
  }

  lemma {:induction false} UnitsOfOne(rs: seq<Reservation>, id: nat, sale: nat)
    ensures UnitsOf(rs, {id}, sale) == if id < |rs| && rs[id].sale == sale then rs[id].quantity else 0
  {
    if rs != [] {
      UnitsOfOne(rs[..|rs| - 1], id, sale);
    }
  }

  lemma {:induction false} UnitsOfNone(rs: seq<Reservation>, sale: nat)
    ensures UnitsOf(rs, {}, sale) == 0
  {
    if rs != [] {
      UnitsOfNone(rs[..|rs| - 1], sale);
    }
  }

  lemma RowsCompose(rs: seq<Reservation>, os: seq<Order>, a: set<nat>, b: set<nat>)
    ensures ExpiredRows(ExpiredRows(rs, a), b) == ExpiredRows(rs, a + b)
    ensures FailedOrders(FailedOrders(os, a), b) == FailedOrders(os, a + b)
  {
  }

  lemma SaleComposes(db: Db, a: set<nat>, b: set<nat>, sale: nat)
    requires a !! b && sale in db.inventory
    ensures var first := ExpireBulk(db, a);
      first.inventory[sale].Unreserve(UnitsOf(first.reservations, b, sale))
        == db.inventory[sale].Unreserve(UnitsOf(db.reservations, a + b, sale))
  {
    hide FailedOrders;
    UnitsOfUnion(db.reservations, ExpiredRows(db.reservations, a), a, b, sale);
    hide UnitsOf, ExpiredRows;
  }

  /** Splitting a set of rows into two batches changes nothing. */
  lemma BatchesCompose(db: Db, a: set<nat>, b: set<nat>)
    requires a !! b
    ensures ExpireBulk(ExpireBulk(db, a), b) == ExpireBulk(db, a + b)
  {
    hide UnitsOf, ExpiredRows, FailedOrders;
    RowsCompose(db.reservations, db.orders, a, b);
    forall s | s in db.inventory
      ensures ExpireBulk(ExpireBulk(db, a), b).inventory[s] == ExpireBulk(db, a + b).inventory[s]
    {
      SaleComposes(db, a, b, s);
    }
    assert ExpireBulk(ExpireBulk(db, a), b).inventory == ExpireBulk(db, a + b).inventory;
  }

  lemma BulkOfOne(db: Db, id: nat)
    requires StockChecks(db.inventory) && id < |db.reservations| && db.reservations[id].sale in db.inventory
    ensures ExpireBulk(db, {id}) == ExpireOne(db, id)
  {
    var bulk, one := ExpireBulk(db, {id}), ExpireOne(db, id);
    assert bulk.inventory == one.inventory by {
      forall s | s in db.inventory ensures bulk.inventory[s] == one.inventory[s] {
        assert db.inventory[s].Check();
        UnitsOfOne(db.reservations, id, s);
      }
    }
    assert bulk.reservations == one.reservations;
    assert bulk.orders == one.orders;
  }

  lemma BulkOfNone(db: Db)
    requires StockChecks(db.inventory)
    ensures ExpireBulk(db, {}) == db
  {
    var bulk := ExpireBulk(db, {});
    assert bulk.inventory == db.inventory by {
      forall s | s in db.inventory ensures bulk.inventory[s] == db.inventory[s] {
        assert db.inventory[s].Check();
        UnitsOfNone(db.reservations, s);
      }
    }
    assert bulk.reservations == db.reservations;
    assert bulk.orders == db.orders;
  }

  lemma ExpiredRowsKeepConstraints(rs: seq<Reservation>, ids: set<nat>)
    requires OneLivePerUserAndSale(rs) && DistinctKeys(rs)
    ensures OneLivePerUserAndSale(ExpiredRows(rs, ids)) && DistinctKeys(ExpiredRows(rs, ids))
  {
    var after := ExpiredRows(rs, ids);
    forall i, j | 0 <= i < j < |after|
      ensures after[i].key != after[j].key
      ensures after[i].Live() && after[j].Live() && after[i].user == after[j].user ==> after[i].sale != after[j].sale
    {
      assert rs[i].key != rs[j].key;
    }
  }

  lemma BulkKeepsReferences(db: Db, ids: set<nat>)
    requires References(db) && StockChecks(db.inventory)
    ensures References(ExpireBulk(db, ids)) && StockChecks(ExpireBulk(db, ids).inventory)
  {
    var after := ExpireBulk(db, ids);
    assert forall s :: s in db.inventory ==> db.inventory[s].Check();
    assert forall i :: 0 <= i < |db.reservations| ==> after.reservations[i].sale == db.reservations[i].sale;
  }

  /** Expiring rows never trips a constraint. */
  lemma BulkKeepsConstraints(db: Db, ids: set<nat>)
    requires Constraints(db)
    ensures Constraints(ExpireBulk(db, ids))
  {
    var after := ExpireBulk(db, ids);
    ExpiredRowsKeepConstraints(db.reservations, ids);
    BulkKeepsReferences(db, ids);
    assert OneOrderPerReservation(after.orders) by {
      forall i, j | 0 <= i < j < |after.orders| ensures after.orders[i].reservation != after.orders[j].reservation {
        assert db.orders[i].reservation != db.orders[j].reservation;
      }
    }
  }

  lemma OneMoreRow(db: Db, ids: set<nat>, id: nat)
    requires StockChecks(db.inventory)
    requires id < |db.reservations| && db.reservations[id].sale in db.inventory && id !in ids
    ensures ExpireOne(ExpireBulk(db, ids), id) == ExpireBulk(db, ids + {id})
  {
    var first := ExpireBulk(db, ids);
    BatchesCompose(db, ids, {id});
    assert StockChecks(first.inventory);
    BulkOfOne(first, id);
  }

  lemma LastId(ids: seq<nat>)
    requires ids != [] && Distinct(ids)
    ensures var n := |ids| - 1; ids[n] !in Ids(ids[..n]) && Ids(ids) == Ids(ids[..n]) + {ids[n]}
  {
    assert ids == ids[..|ids| - 1] + [ids[|ids| - 1]];
  }

  lemma BatchWithoutLast(db: Db, ids: seq<nat>)
    requires References(db) && Rows(db, ids) && ids != []
    ensures var last := ids[|ids| - 1];
      && Rows(db, ids[..|ids| - 1]) && Distinct(ids)
      && last < |db.reservations| && db.reservations[last].sale in db.inventory
  {
  }

  lemma RowOutsideBatch(db: Db, ids: set<nat>, id: nat)
    requires id < |db.reservations| && id !in ids
    ensures var after := ExpireBulk(db, ids).reservations;
      |after| == |db.reservations| && after[id] == db.reservations[id]
  {
    hide UnitsOf, FailedOrders;
  }

  /** The bulk statements refine row-by-row expiry, whatever order the rows are taken in. */
  lemma {:induction false} BulkRefinesRowByRow(db: Db, ids: seq<nat>)
    requires References(db) && StockChecks(db.inventory) && Rows(db, ids)
    ensures ExpireInTurn(db, ids) == ExpireBulk(db, Ids(ids))
  {
    if ids == [] {
      BulkOfNone(db);
      assert Ids(ids) == {};
    } else {
      BulkRefinesRowByRow(db, ids[..|ids| - 1]);
      LastId(ids);
      OneMoreRow(db, Ids(ids[..|ids| - 1]), ids[|ids| - 1]);
    }
  }

  // ---------------------------------------------------------------- choosing the rows

  predicate Overdue(r: Reservation, now: int) {
    r.Live() && r.expiresAt < now
  }

  /** Rows another transaction has locked are skipped. */
  function OverdueRows(rs: seq<Reservation>, now: int, locked: set<nat>): set<nat> {
    set i | 0 <= i < |rs| && Overdue(rs[i], now) && i !in locked
  }

  predicate ByDeadline(rs: seq<Reservation>, ids: seq<nat>) {
    && (forall i :: 0 <= i < |ids| ==> ids[i] < |rs|)
    && (forall i, j :: 0 <= i < j < |ids| ==> rs[ids[i]].expiresAt <= rs[ids[j]].expiresAt)
  }

  predicate Distinct(ids: seq<nat>) {
    forall i, j :: 0 <= i < j < |ids| ==> ids[i] != ids[j]
  }

  lemma LastByDeadline(rs: seq<Reservation>, ids: seq<nat>, last: nat)
    requires ByDeadline(rs, ids) && Distinct(ids) && last < |rs| && last !in ids
    requires forall x :: x in ids ==> x < |rs| && rs[x].expiresAt <= rs[last].expiresAt
    ensures ByDeadline(rs, ids + [last]) && Distinct(ids + [last])
  {
    assert forall i :: 0 <= i < |ids| ==> ids[i] in ids;
  }

  function InsertByDeadline(rs: seq<Reservation>, ids: seq<nat>, id: nat): (out: seq<nat>)
    requires id < |rs| && id !in ids && ByDeadline(rs, ids) && Distinct(ids)
    ensures ByDeadline(rs, out) && Distinct(out) && |out| == |ids| + 1
    ensures forall x :: x in out <==> x in ids || x == id
  {
    var n := |ids| - 1;
    if ids == [] || rs[ids[n]].expiresAt <= rs[id].expiresAt then ids + [id]
    else
      assert ids == ids[..n] + [ids[n]];
      var front := InsertByDeadline(rs, ids[..n], id);
      assert forall x :: x in ids[..n] ==> rs[x].expiresAt <= rs[ids[n]].expiresAt;
      LastByDeadline(rs, front, ids[n]);
      front + [ids[n]]
  }

  /** SELECT ... ORDER BY expires_at FOR UPDATE SKIP LOCKED, before its LIMIT. */
  function SelectOverdue(rs: seq<Reservation>, upTo: nat, now: int, locked: set<nat>): (ids: seq<nat>)
    requires upTo <= |rs|
    ensures ByDeadline(rs, ids) && Distinct(ids)
    ensures forall i: nat :: i in ids <==> i < upTo && Overdue(rs[i], now) && i !in locked
  {
    if upTo == 0 then []
    else
      var before := SelectOverdue(rs, upTo - 1, now, locked);
      var last := upTo - 1;
      if Overdue(rs[last], now) && last !in locked then
        InsertByDeadline(rs, before, last)
      else before
  }

  // ---------------------------------------------------------------- the worker

  function ReleaseRows(st: Store, rs: seq<Reservation>, ids: seq<nat>, active: set<nat>, now: int): Store
    requires forall i :: 0 <= i < |ids| ==> ids[i] < |rs|
  {
    if ids == [] then st
    else
      var n := |ids| - 1;
      var before := ReleaseRows(st, rs, ids[..n], active, now);
      var row := rs[ids[n]];
      if row.sale in active then Release(before, row.sale, RowKey(ids[n]), row.quantity, now) else before
  }

  function CounterOf(st: Store, sale: nat): int {
    if sale in st.counters then st.counters[sale] else 0
  }

  /** The row's units, if its sale is `sale` and active, and a hold exists under the row's id. */
  function GivenBack(st: Store, rs: seq<Reservation>, active: set<nat>, sale: nat, now: int): nat -> int {
    (id: nat) =>
      if id < |rs| && rs[id].sale == sale && sale in active && st.Exists(RowKey(id), now) then rs[id].quantity else 0
  }

  /** The loop removes the holds found under the ids of rows of active sales, and gives back those rows' units. */
  lemma {:induction false} ReleaseRowsGivesBack(
      st: Store, rs: seq<Reservation>, ids: seq<nat>, active: set<nat>, now: int)
    requires (forall i :: 0 <= i < |ids| ==> ids[i] < |rs|) && Distinct(ids)
    ensures var after := ReleaseRows(st, rs, ids, active, now);
      && (forall key :: key in after.holds <==>
            key in st.holds && !(key.RowKey? && key.row in ids && rs[key.row].sale in active && st.Exists(key, now)))
      && (forall key :: key in after.holds ==> after.holds[key] == st.holds[key])
      && (forall sale :: CounterOf(after, sale) == CounterOf(st, sale) + Sum(ids, GivenBack(st, rs, active, sale, now)))
  {
    if ids != [] {
      var n := |ids| - 1;
      ReleaseRowsGivesBack(st, rs, ids[..n], active, now);
      assert ids == ids[..n] + [ids[n]];
      forall sale ensures Sum(ids, GivenBack(st, rs, active, sale, now))
        == Sum(ids[..n], GivenBack(st, rs, active, sale, now)) + GivenBack(st, rs, active, sale, now)(ids[n])
      {
        SumAppend(ids[..n], ids[n], GivenBack(st, rs, active, sale, now));
      }
    }
  }

  ghost predicate NoRowHolds(st: Store) {
    forall id :: RowKey(id) !in st.holds
  }

  /** Without a hold under any row id, the release loop gives nothing back. */
  lemma {:induction false} ReleaseRowsFindsNothing(
      st: Store, rs: seq<Reservation>, ids: seq<nat>, active: set<nat>, now: int)
    requires forall i :: 0 <= i < |ids| ==> ids[i] < |rs|
    requires NoRowHolds(st)
    ensures ReleaseRows(st, rs, ids, active, now) == st
  {
    if ids != [] {
      ReleaseRowsFindsNothing(st, rs, ids[..|ids| - 1], active, now);
    }
  }

  /** sale_groups: the sales of the listed rows, each with its units. */
  ghost predicate Grouped(groups: map<nat, nat>, rs: seq<Reservation>, ids: seq<nat>) {
    && (forall s :: s in groups ==> exists id :: id in ids && id < |rs| && rs[id].sale == s)
    && (forall s :: UnitsOf(rs, Ids(ids), s) == if s in groups then groups[s] else 0)
  }

  lemma GroupOneMore(groups: map<nat, nat>, rs: seq<Reservation>, ids: seq<nat>, id: nat)
    requires Grouped(groups, rs, ids) && id < |rs| && id !in ids
    ensures var sale := rs[id].sale;
      Grouped(groups[sale := (if sale in groups then groups[sale] else 0) + rs[id].quantity], rs, ids + [id])
  {
    var sale := rs[id].sale;
    var more := groups[sale := (if sale in groups then groups[sale] else 0) + rs[id].quantity];
    assert Ids(ids + [id]) == Ids(ids) + {id};
    forall s ensures UnitsOf(rs, Ids(ids + [id]), s) == if s in more then more[s] else 0 {
      UnitsOfUnion(rs, rs, Ids(ids), {id}, s);
      UnitsOfOne(rs, id, s);
    }
    forall s | s in more ensures exists x :: x in ids + [id] && x < |rs| && rs[x].sale == s {
      if s == sale {
        assert id in ids + [id];
      } else {
        var x :| x in ids && x < |rs| && rs[x].sale == s;
        assert x in ids + [id];
      }
    }
  }

  lemma NoGroups(rs: seq<Reservation>)
    ensures Grouped(map[], rs, [])
  {
    forall s ensures UnitsOf(rs, {}, s) == 0 {
      UnitsOfNone(rs, s);
    }
    assert Ids([]) == {};
  }

  /** The accumulation into `sale_groups`. */
  method GroupBySale(rs: seq<Reservation>, ids: seq<nat>) returns (groups: map<nat, nat>)
    requires (forall i :: 0 <= i < |ids| ==> ids[i] < |rs|) && Distinct(ids)
    ensures Grouped(groups, rs, ids)
  {
    groups := map[];
    NoGroups(rs);
    hide Grouped, Ids, UnitsOf;
    for i := 0 to |ids|
      invariant Grouped(groups, rs, ids[..i])
    {
      var row := rs[ids[i]];
      GroupOneMore(groups, rs, ids[..i], ids[i]);
      assert ids[..i + 1] == ids[..i] + [ids[i]];
      groups := groups[row.sale := (if row.sale in groups then groups[row.sale] else 0) + row.quantity];
    }
    assert ids[..|ids|] == ids;
  }

  /** The loop over the groups: one clamped subtraction per sale. */
  method UnreserveGroups(db: Postgres, groups: map<nat, nat>)
    requires groups.Keys <= db.inventory.Keys
    modifies db`inventory
    ensures db.inventory == map s | s in old(db.inventory) ::
      if s in groups then old(db.inventory)[s].Unreserve(groups[s]) else old(db.inventory)[s]
  {
    ghost var was := db.inventory;
    var todo := groups.Keys;
    while todo != {}
      invariant todo <= groups.Keys
      invariant db.inventory.Keys == was.Keys
      invariant forall s :: s in was ==>
        db.inventory[s] == (if s in groups && s !in todo then was[s].Unreserve(groups[s]) else was[s])
      decreases todo
    {
      var sale :| sale in todo;
      db.inventory := db.inventory[sale := db.inventory[sale].Unreserve(groups[sale])];
      todo := todo - {sale};
    }
  }

  lemma RowsAreDistinct(db: Db, ids: seq<nat>)
    requires Rows(db, ids)
    ensures (forall i :: 0 <= i < |ids| ==> ids[i] < |db.reservations|) && Distinct(ids)
  {
  }

  /** One subtraction per group is one subtraction per sale: a sale without a group has nothing to subtract. */
  lemma GroupsCoverTheBulk(db: Db, groups: map<nat, nat>, ids: seq<nat>)
    requires References(db) && StockChecks(db.inventory) && Grouped(groups, db.reservations, ids)
    ensures groups.Keys <= db.inventory.Keys
    ensures ExpireBulk(db, Ids(ids)) == db.(
      reservations := ExpiredRows(db.reservations, Ids(ids)),
      orders := FailedOrders(db.orders, Ids(ids)),
      inventory := map s | s in db.inventory ::
        if s in groups then db.inventory[s].Unreserve(groups[s]) else db.inventory[s])
  {
    forall s | s in db.inventory && s !in groups ensures db.inventory[s].Unreserve(0) == db.inventory[s] {
      assert db.inventory[s].Check();
    }
  }

  /** The three groups of bulk statements, as one transaction. */
  method ExpireTransaction(db: Postgres, ids: seq<nat>)
    requires References(db.View()) && StockChecks(db.inventory) && Rows(db.View(), ids)
    modifies db
    ensures db.View() == ExpireBulk(old(db.View()), Ids(ids))
  {
    hide ExpireBulk, ExpiredRows, FailedOrders, Grouped, References, StockChecks, Rows, Distinct, Ids;
    ghost var before := db.View();
    var chosen := Ids(ids);
    RowsAreDistinct(before, ids);
    var groups := GroupBySale(db.reservations, ids);
    GroupsCoverTheBulk(before, groups, ids);
    db.reservations := ExpiredRows(db.reservations, chosen);
    db.orders := FailedOrders(db.orders, chosen);
    UnreserveGroups(db, groups);
  }

  /** The release loop, after the transaction has committed. */
  method ReleaseLoop(redis: InventoryService, rows: seq<Reservation>, ids: seq<nat>, active: set<nat>, now: int)
    requires forall i :: 0 <= i < |ids| ==> ids[i] < |rows|
    modifies redis
    ensures redis.View() == ReleaseRows(old(redis.View()), rows, ids, active, now)
  {
    for i := 0 to |ids|
      invariant redis.View() == ReleaseRows(old(redis.View()), rows, ids[..i], active, now)
    {
      var row := rows[ids[i]];
      assert ids[..i + 1][..i] == ids[..i];
      if row.sale in active {
        redis.ReleaseInventory(row.sale, RowKey(ids[i]), row.quantity, now);
      }
    }
    assert ids[..|ids|] == ids;
  }

  function Fetched(rs: seq<Reservation>, now: int, locked: set<nat>, limit: nat): seq<nat> {
    var all := SelectOverdue(rs, |rs|, now, locked);
    if |all| <= limit then all else all[..limit]
  }

  lemma FetchedAreRows(db: Db, now: int, locked: set<nat>, limit: nat)
    ensures var ids, rows := Fetched(db.reservations, now, locked, limit), db.reservations;
      && Rows(db, ids)
      && (forall i :: 0 <= i < |ids| ==> ids[i] < |rows|)
      && forall id :: id in ids ==>
           id < |rows| && id !in locked && rows[id].status in {Pending, Confirmed} && rows[id].expiresAt < now
  {
  }

  lemma NothingFetched(st: Store, rows: seq<Reservation>, active: set<nat>, now: int)
    ensures Ids([]) == {} && ReleaseRows(st, rows, [], active, now) == st
  {
  }

  /** _expire_batch. `limit` is its batch size, 100 in the source. */
  method ExpireBatch(db: Postgres, redis: InventoryService, active: set<nat>, locked: set<nat>, now: int, limit: nat)
    returns (ids: seq<nat>)
    requires References(db.View()) && StockChecks(db.inventory)
    modifies db, redis
    ensures ids == Fetched(old(db.reservations), now, locked, limit)
    ensures db.View() == ExpireBulk(old(db.View()), Ids(ids))
    ensures ExpiredExactly(old(db.View()), db.View(), Ids(ids))
    ensures forall id :: id in ids ==>
      && id < |old(db.reservations)| && id !in locked
      && old(db.reservations)[id].status in {Pending, Confirmed} && old(db.reservations)[id].expiresAt < now
    ensures References(db.View()) && StockChecks(db.inventory)
    ensures redis.View() == ReleaseRows(old(redis.View()), old(db.reservations), ids, active, now)
    ensures NoRowHolds(old(redis.View())) ==> redis.View() == old(redis.View())
  {
    hide *;
    db.Viewed();
    var rows := db.reservations;
    ids := Fetched(rows, now, locked, limit);
    BulkKeepsReferences(db.View(), Ids(ids));
    BulkExpiresExactly(db.View(), Ids(ids));
    FetchedAreRows(db.View(), now, locked, limit);
    if NoRowHolds(redis.View()) {
      ReleaseRowsFindsNothing(redis.View(), rows, ids, active, now);
    }
    if ids == [] {
      NothingFetched(redis.View(), rows, active, now);
      BulkOfNone(db.View());
      return;
    }
    ExpireTransaction(db, ids);
    db.Viewed();
    ReleaseLoop(redis, rows, ids, active, now);
  }

  lemma {:induction false} CountIds(ids: seq<nat>)
    requires Distinct(ids)
    ensures |Ids(ids)| == |ids|
  {
    if ids == [] {
      assert Ids(ids) == {};
    } else {
      LastId(ids);
      CountIds(ids[..|ids| - 1]);
    }
  }

  /**
   A batch is the `limit` unlocked rows, pending or confirmed and past their deadline, with the earliest
   deadlines, or all of them.
   */
  lemma FetchedAreTheMostOverdue(rs: seq<Reservation>, now: int, locked: set<nat>, limit: nat)
    ensures var ids := Fetched(rs, now, locked, limit);
      var overdue := set r | 0 <= r < |rs| && rs[r].status in {Pending, Confirmed} && rs[r].expiresAt < now
        && r !in locked;
      && Distinct(ids) && Ids(ids) <= overdue
      && |Ids(ids)| == |ids| <= limit
      && (|ids| < limit ==> Ids(ids) == overdue)
      && (forall x, y :: x in ids && y in overdue && y !in ids ==> rs[x].expiresAt <= rs[y].expiresAt)
  {
    var ids := Fetched(rs, now, locked, limit);
    var all := SelectOverdue(rs, |rs|, now, locked);
    assert Ids(all) == OverdueRows(rs, now, locked);
    CountIds(ids);
    assert all == ids + all[|ids|..];
    OverdueAreLive(rs, now, locked);
  }

  /** The overdue rows are the unlocked rows, pending or confirmed, whose deadline is past. */
  lemma OverdueAreLive(rs: seq<Reservation>, now: int, locked: set<nat>)
    ensures OverdueRows(rs, now, locked)
      == set r | 0 <= r < |rs| && rs[r].status in {Pending, Confirmed} && rs[r].expiresAt < now && r !in locked
  {
  }

  lemma OverdueAfterBulk(db: Db, ids: set<nat>, now: int, locked: set<nat>)
    ensures var after := ExpireBulk(db, ids).reservations;
      OverdueRows(after, now, locked) == OverdueRows(db.reservations, now, locked) - ids
  {
  }

  lemma Counting(all: set<nat>, done: set<nat>, more: set<nat>)
    requires done <= all && more <= all - done
    ensures |done + more| == |done| + |more|
    ensures |all - (done + more)| == |all - done| - |more|
  {
    assert all - (done + more) == (all - done) - more;
    assert all - done == ((all - done) - more) + more;
  }

  /** One more batch after the rows in `done` have been expired. */
  lemma BatchStep(before: Db, done: set<nat>, now: int, locked: set<nat>, limit: nat)
    requires done <= OverdueRows(before.reservations, now, locked)
    ensures var overdue := OverdueRows(before.reservations, now, locked);
      var ids := Fetched(ExpireBulk(before, done).reservations, now, locked, limit);
      && Ids(ids) <= overdue - done
      && |Ids(ids)| == |ids| <= limit
      && (|ids| < limit ==> done + Ids(ids) == overdue)
      && ExpireBulk(ExpireBulk(before, done), Ids(ids)) == ExpireBulk(before, done + Ids(ids))
  {
    var rows := ExpireBulk(before, done).reservations;
    OverdueAfterBulk(before, done, now, locked);
    FetchedAreTheMostOverdue(rows, now, locked, limit);
    BatchesCompose(before, done, Ids(Fetched(rows, now, locked, limit)));
  }

  /**
   expire_reservations: the batch loop ends, and amounts to one pass over all the overdue
   rows no other transaction holds, whatever the batch size.
   */
  method ExpireReservations(db: Postgres, redis: InventoryService, active: set<nat>, locked: set<nat>,
                            now: int, limit: nat)
    returns (total: nat)
    requires References(db.View()) && StockChecks(db.inventory) && limit >= 1
    modifies db, redis
    ensures var rows := old(db.reservations);
      var overdue := set r | 0 <= r < |rows| && rows[r].status in {Pending, Confirmed} && rows[r].expiresAt < now
        && r !in locked;
      && total == |overdue|
      && db.View() == ExpireBulk(old(db.View()), overdue)
      && ExpiredExactly(old(db.View()), db.View(), overdue)
    ensures forall r :: 0 <= r < |db.reservations| && r !in locked ==>
      !(db.reservations[r].status in {Pending, Confirmed} && db.reservations[r].expiresAt < now)
    ensures NoRowHolds(old(redis.View())) ==> redis.View() == old(redis.View())
  {
    hide *;
    db.Viewed();
    ghost var before := db.View();
    ghost var overdue := OverdueRows(before.reservations, now, locked);
    ghost var done: set<nat> := {};
    BulkOfNone(before);
    total := 0;
    while true
      invariant done <= overdue && total == |done|
      invariant db.View() == ExpireBulk(before, done)
      invariant References(db.View()) && StockChecks(db.inventory)
      invariant NoRowHolds(old(redis.View())) ==> redis.View() == old(redis.View())
      decreases |overdue - done|
    {
      db.Viewed();
      BatchStep(before, done, now, locked, limit);
      var ids := ExpireBatch(db, redis, active, locked, now, limit);
      Counting(overdue, done, Ids(ids));
      total := total + |ids|;
      done := done + Ids(ids);
      if |ids| < limit {
        break;
      }
    }
    db.Viewed();
    OverdueAreLive(before.reservations, now, locked);
    BulkExpiresExactly(before, overdue);
    NoneLeftOverdue(before, db.View(), now, locked);
  }

  lemma NoneLeftOverdue(db: Db, after: Db, now: int, locked: set<nat>)
    requires ExpiredExactly(db, after, OverdueRows(db.reservations, now, locked))
    ensures forall r :: 0 <= r < |after.reservations| && r !in locked ==>
      !(after.reservations[r].status in {Pending, Confirmed} && after.reservations[r].expiresAt < now)
  {
  }
}
