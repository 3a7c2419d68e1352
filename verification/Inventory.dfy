/**
 The Redis side: one counter of free units per sale, and one expiring hold per key.
 Each script runs atomically. The clock counts whole seconds, the unit in which
 Redis reports and sets a key's time to live.
 */
module Inventory {
  import opened Sums

  /**
   Holds are written under the uuid drawn by the request; cancellation, expiry and
   modification look them up under the id PostgreSQL gave to the reservation row.
   */
  datatype Key = RequestKey(request: nat) | RowKey(row: nat)

  datatype Hold = Hold(quantity: int, deadline: int)

  datatype Store = Store(counters: map<nat, int>, holds: map<Key, Hold>) {
    /** EXISTS: a key whose deadline has come is gone. */
    predicate Exists(key: Key, now: int) {
      key in holds && now < holds[key].deadline
    }

    /** INCRBY, which creates a missing counter. */
    function IncrBy(sale: nat, amount: int): Store {
      this.(counters := counters[sale := (if sale in counters then counters[sale] else 0) + amount])
    }

    function WithHold(key: Key, quantity: int, ttl: int, now: int): Store {
      this.(holds := holds[key := Hold(quantity, now + ttl)])
    }
  }

  /** initialize_inventory */
  function Initialized(st: Store, sale: nat, quantity: int, alreadyReserved: int): Store {
    st.(counters := st.counters[sale := if quantity < alreadyReserved then 0 else quantity - alreadyReserved])
  }

  function TryReserve(st: Store, sale: nat, key: Key, quantity: int, ttl: int, now: int): (Store, bool) {
    if sale !in st.counters || st.counters[sale] < quantity then (st, false)
    else (st.IncrBy(sale, -quantity).WithHold(key, quantity, ttl, now), true)
  }

  function Release(st: Store, sale: nat, key: Key, quantity: int, now: int): Store {
    if st.Exists(key, now) then
      var credited := st.IncrBy(sale, quantity);
      credited.(holds := credited.holds - {key})
    else
      st
  }

  /** The metadata update at the end of both quantity scripts: the key keeps its remaining TTL. */
  function AdjustHold(st: Store, key: Key, amount: int, now: int): Store {
    if st.Exists(key, now) then
      st.WithHold(key, st.holds[key].quantity + amount, st.holds[key].deadline - now, now)
    else
      st
  }

  function TryIncrease(st: Store, sale: nat, key: Key, extra: int, now: int): (Store, bool) {
    if sale !in st.counters || st.counters[sale] < extra then (st, false)
    else (AdjustHold(st.IncrBy(sale, -extra), key, extra, now), true)
  }

  function ReleasePartial(st: Store, sale: nat, key: Key, released: int, now: int): Store {
    AdjustHold(st.IncrBy(sale, released), key, -released, now)
  }

  /** The service object: each method is one script, command by command. */
  class InventoryService {
    var counters: map<nat, int>
    var holds: map<Key, Hold>

    constructor ()
      ensures View() == Store(map[], map[])
    {
      counters, holds := map[], map[];
    }

    ghost function View(): Store
      reads this
    {
      Store(counters, holds)
    }

    predicate Exists(key: Key, now: int)
      reads this
      ensures Exists(key, now) <==> View().Exists(key, now)
    {
      key in holds && now < holds[key].deadline
    }

    method IncrBy(sale: nat, amount: int)
      modifies this`counters
      ensures View() == old(View()).IncrBy(sale, amount)
    {
      var current := if sale in counters then counters[sale] else 0;
      counters := counters[sale := current + amount];
    }

    method InitializeInventory(sale: nat, quantity: int, alreadyReserved: int)
      modifies this`counters
      ensures View() == Initialized(old(View()), sale, quantity, alreadyReserved)
      ensures holds == old(holds) && sale in counters
      ensures counters == old(counters)[sale := counters[sale]]
      ensures counters[sale] == if alreadyReserved < quantity then quantity - alreadyReserved else 0
    {
      var available := quantity - alreadyReserved;
      if available < 0 {
        available := 0;
      }
      counters := counters[sale := available];
    }

    /** What is read is what can be reserved: a script run next takes any positive amount up to it, and no more. */
    method GetAvailableInventory(sale: nat) returns (available: int)
      ensures sale !in counters ==> available == 0
      ensures sale in counters ==> available == counters[sale]
      ensures forall key, quantity, ttl, now :: quantity > 0 ==>
        (TryReserve(View(), sale, key, quantity, ttl, now).1 <==> quantity <= available)
    {
      if sale in counters {
        available := counters[sale];
      } else {
        available := 0;
      }
    }

    method TryReserveInventory(sale: nat, key: Key, quantity: int, ttl: int, now: int) returns (ok: bool)
      modifies this
      ensures (View(), ok) == TryReserve(old(View()), sale, key, quantity, ttl, now)
      ensures ok <==> sale in old(counters) && quantity <= old(counters)[sale]
    {
      if sale !in counters || counters[sale] < quantity {
        return false;
      }
      IncrBy(sale, -quantity);
      holds := holds[key := Hold(quantity, now + ttl)];
      return true;
    }

    method ReleaseInventory(sale: nat, key: Key, quantity: int, now: int)
      modifies this
      ensures View() == Release(old(View()), sale, key, quantity, now)
    {
      if Exists(key, now) {
        IncrBy(sale, quantity);
        holds := holds - {key};
      }
    }

    method ConfirmReservation(key: Key)
      modifies this`holds
      ensures View() == Store(old(counters), old(holds) - {key})
    {
      holds := holds - {key};
    }

    method TryIncreaseReservation(sale: nat, key: Key, extra: int, now: int) returns (ok: bool)
      modifies this
      ensures (View(), ok) == TryIncrease(old(View()), sale, key, extra, now)
      ensures ok <==> sale in old(counters) && extra <= old(counters)[sale]
    {
      if sale !in counters || counters[sale] < extra {
        return false;
      }
      IncrBy(sale, -extra);
      if Exists(key, now) {
        var ttl := holds[key].deadline - now;
        holds := holds[key := Hold(holds[key].quantity + extra, now + ttl)];
      }
      return true;
    }

    method ReleasePartialInventory(sale: nat, key: Key, released: int, now: int)
      modifies this
      ensures View() == ReleasePartial(old(View()), sale, key, released, now)
    {
      IncrBy(sale, released);
      if Exists(key, now) {
        var ttl := holds[key].deadline - now;
        holds := holds[key := Hold(holds[key].quantity - released, now + ttl)];
      }
    }
  }

  /** A second release of the same hold changes nothing. */
  lemma ReleaseTwiceIsReleaseOnce(st: Store, sale: nat, key: Key, quantity: int, again: int, now: int, later: int)
    requires now <= later
    ensures var once := Release(st, sale, key, quantity, now);
      Release(once, sale, key, again, later) == once
  {
  }

  /** A hold lasts for exactly its time to live, and a refused reservation writes none. */
  lemma HoldsLastTheirTtl(st: Store, sale: nat, key: Key, quantity: int, ttl: int, now: int, later: int)
    ensures var (after, ok) := TryReserve(st, sale, key, quantity, ttl, now);
      && (ok ==> (after.Exists(key, later) <==> later < now + ttl) && after.holds[key].quantity == quantity)
      && (forall other :: !ok || other != key ==> (after.Exists(other, later) <==> st.Exists(other, later)))
  {
  }

  /** A quantity script leaves every hold as long to live as it had, and changes only the hold it names. */
  lemma QuantityScriptsKeepDeadlines(st: Store, sale: nat, key: Key, amount: int, now: int, other: Key, later: int)
    ensures var (more, ok) := TryIncrease(st, sale, key, amount, now);
      var less := ReleasePartial(st, sale, key, amount, now);
      && (more.Exists(other, later) <==> st.Exists(other, later))
      && (less.Exists(other, later) <==> st.Exists(other, later))
      && (st.Exists(other, later) ==>
            var named := other == key && st.Exists(key, now);
            && more.holds[other].quantity == st.holds[other].quantity + (if ok && named then amount else 0)
            && less.holds[other].quantity == st.holds[other].quantity - (if named then amount else 0))
  {
  }

  // ---------------------------------------------------------------- the ledger of one sale

  datatype Op =
    | Reserve(key: Key, quantity: int, ttl: int)
    | ReleaseHold(key: Key, quantity: int)
    | Increase(key: Key, extra: int)
    | Decrease(key: Key, released: int)
    | Wait(seconds: nat)

  /** `charged` records the units taken from the counter and not yet given back, key by key. */
  datatype Ledger = Ledger(store: Store, charged: map<Key, int>, now: int)

  function Charge(charged: map<Key, int>, key: Key, amount: int): map<Key, int> {
    charged[key := (if key in charged then charged[key] else 0) + amount]
  }

  /**
   What callers promise: fresh hold ids, positive amounts, a release of the hold's
   current quantity, a decrease of less than what the key is still charged.
   */
  predicate Legal(l: Ledger, op: Op) {
    match op
    case Reserve(key, quantity, ttl) => key !in l.charged && quantity > 0 && ttl > 0
    case ReleaseHold(key, quantity) => l.store.Exists(key, l.now) ==> quantity == l.store.holds[key].quantity
    case Increase(key, extra) => extra > 0
    case Decrease(key, released) => 0 < released && key in l.charged && released < l.charged[key]
    case Wait(_) => true
  }

  function Perform(l: Ledger, sale: nat, op: Op): Ledger {
    match op
    case Reserve(key, quantity, ttl) =>
      var (store, ok) := TryReserve(l.store, sale, key, quantity, ttl, l.now);
      if ok then l.(store := store, charged := Charge(l.charged, key, quantity)) else l
    case ReleaseHold(key, quantity) =>
      var store := Release(l.store, sale, key, quantity, l.now);
      if l.store.Exists(key, l.now) then l.(store := store, charged := Charge(l.charged, key, -quantity))
      else l.(store := store)
    case Increase(key, extra) =>
      var (store, ok) := TryIncrease(l.store, sale, key, extra, l.now);
      if ok then l.(store := store, charged := Charge(l.charged, key, extra)) else l
    case Decrease(key, released) =>
      l.(store := ReleasePartial(l.store, sale, key, released, l.now), charged := Charge(l.charged, key, -released))
    case Wait(seconds) => l.(now := l.now + seconds)
  }

  function PerformAll(l: Ledger, sale: nat, ops: seq<Op>): Ledger {
    if ops == [] then l else Perform(PerformAll(l, sale, ops[..|ops| - 1]), sale, ops[|ops| - 1])
  }

  predicate AllLegal(l: Ledger, sale: nat, ops: seq<Op>) {
    forall i :: 0 <= i < |ops| ==> Legal(PerformAll(l, sale, ops[..i]), ops[i])
  }

  ghost predicate Balanced(l: Ledger, sale: nat, seed: int) {
    && sale in l.store.counters
    && l.store.counters[sale] >= 0
    && l.store.counters[sale] + SumMap(l.charged) == seed
    && (forall k :: k in l.store.holds ==> k in l.charged)
    && (forall k :: l.store.Exists(k, l.now) ==> l.charged[k] == l.store.holds[k].quantity > 0)
    && (forall k :: k in l.charged ==> l.charged[k] >= 0)
  }

  lemma ReserveBalances(l: Ledger, sale: nat, op: Op, seed: int)
    requires Balanced(l, sale, seed) && op.Reserve? && Legal(l, op)
    ensures Balanced(Perform(l, sale, op), sale, seed)
  {
    SumMapPut(l.charged, op.key, op.quantity);
  }

  lemma ReleaseBalances(l: Ledger, sale: nat, op: Op, seed: int)
    requires Balanced(l, sale, seed) && op.ReleaseHold? && Legal(l, op)
    ensures Balanced(Perform(l, sale, op), sale, seed)
  {
    if l.store.Exists(op.key, l.now) {
      SumMapPut(l.charged, op.key, l.charged[op.key] - op.quantity);
    }
  }

  lemma IncreaseBalances(l: Ledger, sale: nat, op: Op, seed: int)
    requires Balanced(l, sale, seed) && op.Increase? && Legal(l, op)
    ensures Balanced(Perform(l, sale, op), sale, seed)
  {
    SumMapPut(l.charged, op.key, (if op.key in l.charged then l.charged[op.key] else 0) + op.extra);
  }

  lemma DecreaseBalances(l: Ledger, sale: nat, op: Op, seed: int)
    requires Balanced(l, sale, seed) && op.Decrease? && Legal(l, op)
    ensures Balanced(Perform(l, sale, op), sale, seed)
  {
    SumMapPut(l.charged, op.key, l.charged[op.key] - op.released);
  }

  lemma PerformKeepsBalance(l: Ledger, sale: nat, op: Op, seed: int)
    requires Balanced(l, sale, seed) && Legal(l, op)
    ensures Balanced(Perform(l, sale, op), sale, seed)
  {
    match op
    case Reserve(_, _, _) => ReserveBalances(l, sale, op, seed);
    case ReleaseHold(_, _) => ReleaseBalances(l, sale, op, seed);
    case Increase(_, _) => IncreaseBalances(l, sale, op, seed);
    case Decrease(_, _) => DecreaseBalances(l, sale, op, seed);
    case Wait(_) =>
  }

  function LiveUnits(l: Ledger): map<Key, int> {
    map k | k in l.store.holds && l.store.Exists(k, l.now) :: l.store.holds[k].quantity
  }

  /** Units charged to keys without a hold: lapsed holds, and increases of keys that have none. */
  function StrandedUnits(l: Ledger): map<Key, int> {
    map k | k in l.charged && !l.store.Exists(k, l.now) :: l.charged[k]
  }

  /** Every entry of `m` is in exactly one of the other two, and they have no more. */
  predicate Splits<K(==)>(m: map<K, int>, a: map<K, int>, b: map<K, int>) {
    && (forall k :: k in a ==> k in m && k !in b && m[k] == a[k])
    && (forall k :: k in b ==> k in m && m[k] == b[k])
    && (forall k :: k in m ==> k in a || k in b)
  }

  lemma SplitsWithout<K>(m: map<K, int>, a: map<K, int>, b: map<K, int>, k: K)
    requires Splits(m, a, b) && k in a
    ensures Splits(m - {k}, a - {k}, b)
  {
  }

  lemma {:induction false} SumMapSplit<K>(m: map<K, int>, a: map<K, int>, b: map<K, int>)
    requires Splits(m, a, b)
    ensures SumMap(m) == SumMap(a) + SumMap(b)
    decreases |a|
  {
    if a == map[] {
      assert m == b;
    } else {
      var k :| k in a;
      assert k in m && m[k] == a[k];
      SplitsWithout(m, a, b, k);
      hide *;
      SumMapTake(a, k);
      SumMapTake(m, k);
      SumMapSplit(m - {k}, a - {k}, b);
    }
  }

  lemma ChargedIsLivePlusStranded(l: Ledger, sale: nat, seed: int)
    requires Balanced(l, sale, seed)
    ensures SumMap(l.charged) == SumMap(LiveUnits(l)) + SumMap(StrandedUnits(l))
  {
    SumMapSplit(l.charged, LiveUnits(l), StrandedUnits(l));
  }

  lemma {:induction false} BalanceOverRuns(l: Ledger, sale: nat, ops: seq<Op>, seed: int)
    requires Balanced(l, sale, seed) && AllLegal(l, sale, ops)
    ensures Balanced(PerformAll(l, sale, ops), sale, seed)
  {
    if ops != [] {
      var n := |ops| - 1;
      assert AllLegal(l, sale, ops[..n]) by {
        assert forall i :: 0 <= i < n ==> ops[..n][..i] == ops[..i];
      }
      BalanceOverRuns(l, sale, ops[..n], seed);
      PerformKeepsBalance(PerformAll(l, sale, ops[..n]), sale, ops[n], seed);
    }
  }

  function Seeded(sale: nat, seed: nat): Ledger {
    Ledger(Store(map[sale := seed], map[]), map[], 0)
  }

  /**
   The Lua ledger: over every legal sequence of scripts on a seeded counter, free units,
   held units and stranded units add up to the seed, and the counter never goes negative.
   */
  lemma LedgerIsConserved(sale: nat, seed: nat, ops: seq<Op>)
    requires AllLegal(Seeded(sale, seed), sale, ops)
    ensures var l := PerformAll(Seeded(sale, seed), sale, ops);
      && sale in l.store.counters
      && 0 <= l.store.counters[sale]
      && l.store.counters[sale] + SumMap(LiveUnits(l)) + SumMap(StrandedUnits(l)) == seed
  {
    BalanceOverRuns(Seeded(sale, seed), sale, ops, seed);
    ChargedIsLivePlusStranded(PerformAll(Seeded(sale, seed), sale, ops), sale, seed);
  }
}
