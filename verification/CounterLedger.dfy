/** No oversell at the Redis counter: where every seeded unit is, over all runs. */
module CounterLedger {
  import opened Sums
  import opened Tables
  import opened Inventory
  import opened Expiry
  import opened Protocol

  function InFlightUnits(sale: nat): Flight -> int {
    (f: Flight) => if f.sale == sale && (f.phase == Holding || f.phase == Failing) then f.quantity else 0
  }

  function LostUnits(sale: nat): Flight -> int {
    (f: Flight) => if f.sale == sale && f.phase == Lost then f.quantity else 0
  }

  function RowUnits(sale: nat): Reservation -> int {
    (r: Reservation) => if r.sale == sale then r.quantity else 0
  }

  function InFlight(s: State, sale: nat): int { Sum(s.flights, InFlightUnits(sale)) }

  function LostWith(s: State, sale: nat): int { Sum(s.flights, LostUnits(sale)) }

  /** The units of every row, whatever its status: no step of the protocol gives them back. */
  function Charged(s: State, sale: nat): int { Sum(s.db.reservations, RowUnits(sale)) }

  function Counter(s: State, sale: nat): int {
    if sale in s.store.counters then s.store.counters[sale] else 0
  }

  function Accounted(s: State, sale: nat): int {
    Counter(s, sale) + InFlight(s, sale) + LostWith(s, sale) + Charged(s, sale)
  }

  /** Counters exist for the seeded sales only, and units in flight and rows belong to seeded sales. */
  ghost predicate Keyed(s: State, stock: map<nat, nat>) {
    && s.store.counters.Keys == stock.Keys
    && s.db.inventory.Keys == stock.Keys
    && NoRowHolds(s.store)
    && (forall f :: 0 <= f < |s.flights| && (s.flights[f].phase == Holding || s.flights[f].phase == Failing) ==>
          s.flights[f].sale in stock)
  }

  ghost predicate Ledger(s: State, stock: map<nat, nat>) {
    && Keyed(s, stock)
    && (forall sale :: sale in stock ==> Counter(s, sale) >= 0)
    && (forall sale :: sale in stock ==> Accounted(s, sale) == stock[sale])
  }

  // ---------------------------------------------------------------- one step

  lemma MovedFlight(s: State, f: nat, phase: Phase, sale: nat)
    requires f < |s.flights|
    ensures var moved := s.flights[f].(phase := phase);
      && InFlight(Moved(s, f, phase), sale)
           == InFlight(s, sale) - InFlightUnits(sale)(s.flights[f]) + InFlightUnits(sale)(moved)
      && LostWith(Moved(s, f, phase), sale)
           == LostWith(s, sale) - LostUnits(sale)(s.flights[f]) + LostUnits(sale)(moved)
  {
    var after := Moved(s, f, phase);
    SumOneChange(s.flights, after.flights, InFlightUnits(sale), InFlightUnits(sale), f);
    SumOneChange(s.flights, after.flights, LostUnits(sale), LostUnits(sale), f);
  }

  lemma ArriveKeeps(s: State, stock: map<nat, nat>, user: nat, sale: nat, quantity: Units, key: nat)
    requires Ledger(s, stock)
    ensures Ledger(Arrived(s, user, sale, quantity, key), stock)
  {
    hide PassesChecks;
    if PassesChecks(s.db, user, sale, key) {
      var flight := Flight(user, sale, quantity, key, Checked);
      forall x | x in stock ensures Accounted(Arrived(s, user, sale, quantity, key), x) == Accounted(s, x) {
        SumAppend(s.flights, flight, InFlightUnits(x));
        SumAppend(s.flights, flight, LostUnits(x));
      }
    }
  }

  lemma ReserveKeeps(s: State, stock: map<nat, nat>, f: nat, ttl: Units)
    requires Ledger(s, stock)
    ensures Ledger(UnitsReserved(s, f, ttl), stock)
  {
    if In(s, f, Checked) {
      var after := UnitsReserved(s, f, ttl);
      forall x | x in stock ensures Accounted(after, x) == Accounted(s, x) {
        MovedFlight(s, f, after.flights[f].phase, x);
      }
    }
  }

  lemma PersistAccounts(s: State, f: nat, ttl: Units, sale: nat)
    requires Constraints(s.db) && In(s, f, Holding)
    ensures Accounted(Persisted(s, f, ttl), sale) == Accounted(s, sale)
  {
    hide Constraints;
    var flight, after := s.flights[f], Persisted(s, f, ttl);
    MovedFlight(s, f, after.flights[f].phase, sale);
    var row := Reservation(flight.user, flight.sale, flight.quantity, flight.key, s.now + ttl, Pending);
    SumAppend(s.db.reservations, row, RowUnits(sale));
  }

  lemma PersistKeeps(s: State, stock: map<nat, nat>, f: nat, ttl: Units)
    requires Constraints(s.db) && Ledger(s, stock)
    ensures Ledger(Persisted(s, f, ttl), stock)
  {
    hide Constraints;
    if In(s, f, Holding) {
      forall x | x in stock ensures Accounted(Persisted(s, f, ttl), x) == Accounted(s, x) {
        PersistAccounts(s, f, ttl, x);
      }
      hide Accounted, NoRowHolds;
    }
  }

  /** A failed request's units go back to the counter if its hold still exists, and are lost if it does not. */
  lemma CompensateKeeps(s: State, stock: map<nat, nat>, f: nat)
    requires Ledger(s, stock)
    ensures Ledger(Compensated(s, f), stock)
    ensures In(s, f, Failing) ==>
      var after, flight := Compensated(s, f), s.flights[f]; var held := s.store.Exists(RequestKey(f), s.now);
      && InFlight(after, flight.sale) == InFlight(s, flight.sale) - flight.quantity
      && Counter(after, flight.sale) == Counter(s, flight.sale) + (if held then flight.quantity else 0)
      && LostWith(after, flight.sale) == LostWith(s, flight.sale) + (if held then 0 else flight.quantity)
  {
    if In(s, f, Failing) {
      var after := Compensated(s, f);
      MovedFlight(s, f, after.flights[f].phase, s.flights[f].sale);
      forall x | x in stock ensures Accounted(after, x) == Accounted(s, x) {
        MovedFlight(s, f, after.flights[f].phase, x);
      }
    }
  }

  lemma MoveAccounts(s: State, f: nat, phase: Phase, sale: nat)
    requires f < |s.flights| && (s.flights[f].phase == Holding || s.flights[f].phase == Failing)
    requires phase == Failing || phase == Lost
    ensures Accounted(Moved(s, f, phase), sale) == Accounted(s, sale)
  {
    MovedFlight(s, f, phase, sale);
  }

  lemma MoveKeeps(s: State, stock: map<nat, nat>, f: nat, phase: Phase)
    requires Ledger(s, stock) && f < |s.flights|
    requires s.flights[f].phase == Holding || s.flights[f].phase == Failing
    requires phase == Failing || phase == Lost
    ensures Ledger(Moved(s, f, phase), stock)
  {
    forall x | x in stock ensures Accounted(Moved(s, f, phase), x) == Accounted(s, x) {
      MoveAccounts(s, f, phase, x);
    }
    hide Accounted, NoRowHolds;
  }

  /** A request that crashes after taking its units loses them: they are neither in flight nor free. */
  lemma CrashLosesUnits(s: State, f: nat)
    requires Constraints(s.db) && f < |s.flights| && s.flights[f].phase in {Holding, Failing}
    ensures var after, flight := Next(s, CrashApi(f)), s.flights[f];
      && InFlight(after, flight.sale) == InFlight(s, flight.sale) - flight.quantity
      && LostWith(after, flight.sale) == LostWith(s, flight.sale) + flight.quantity
      && after.store == s.store && after.db == s.db
  {
    MovedFlight(s, f, Lost, s.flights[f].sale);
  }

  /** A quantity change moves the units between the counter of the row's sale and the row. */
  lemma ModifyKeeps(s: State, stock: map<nat, nat>, r: nat, user: nat, quantity: Units, ttl: Units)
    requires Constraints(s.db) && Ledger(s, stock)
    ensures Ledger(Modified(s, r, user, quantity, ttl), stock)
    ensures var after := Modified(s, r, user, quantity, ttl); after != s ==>
      && r < |s.db.reservations| == |after.db.reservations| && s.db.reservations[r].sale in stock
      && after.db.reservations[r].quantity == quantity
      && var change := quantity - s.db.reservations[r].quantity; forall x :: x in stock ==>
           Counter(after, x) == Counter(s, x) - if x == s.db.reservations[r].sale then change else 0
  {
    var after := Modified(s, r, user, quantity, ttl);
    assert References(s.db);
    hide Constraints;
    if after != s {
      var row := s.db.reservations[r];
      assert after.db == WithQuantity(s.db, r, quantity, s.now + ttl);
      assert after.store == s.store.IncrBy(row.sale, row.quantity - quantity);
      assert row.quantity < quantity ==> quantity - row.quantity <= s.store.counters[row.sale];
      RecountKeeps(s, after, stock, r);
    }
  }

  /** A row's units change by what its sale's counter changes, the other way round. */
  lemma RecountKeeps(s: State, after: State, stock: map<nat, nat>, r: nat)
    requires Ledger(s, stock) && r < |s.db.reservations| == |after.db.reservations|
    requires after.flights == s.flights && after.db.inventory == s.db.inventory && s.db.reservations[r].sale in stock
    requires after.db.reservations == s.db.reservations[r := after.db.reservations[r]]
    requires after.db.reservations[r].sale == s.db.reservations[r].sale
    requires var change := after.db.reservations[r].quantity - s.db.reservations[r].quantity;
      && after.store == s.store.IncrBy(s.db.reservations[r].sale, -change)
      && change <= s.store.counters[s.db.reservations[r].sale]
    ensures Ledger(after, stock)
  {
    forall x | x in stock ensures Accounted(after, x) == Accounted(s, x) {
      SumOneChange(s.db.reservations, after.db.reservations, RowUnits(x), RowUnits(x), r);
    }
  }

  /** Two tables whose rows agree on sale and quantity charge the same units. */
  predicate SameCharges(before: seq<Reservation>, after: seq<Reservation>) {
    && |after| == |before|
    && forall i :: 0 <= i < |before| ==>
         after[i].sale == before[i].sale && after[i].quantity == before[i].quantity
  }

  lemma TablesOnlyKeep(s: State, after: State, stock: map<nat, nat>)
    requires Ledger(s, stock)
    requires after.store == s.store && after.flights == s.flights
    requires after.db.inventory.Keys == s.db.inventory.Keys
    requires SameCharges(s.db.reservations, after.db.reservations)
    ensures Ledger(after, stock)
  {
    forall x | x in stock ensures Accounted(after, x) == Accounted(s, x) {
      SumCongruent(s.db.reservations, after.db.reservations, RowUnits(x), RowUnits(x));
    }
  }

  lemma DeliverKeepsCharges(db: Db, r: nat, writes: nat)
    requires Constraints(db)
    ensures SameCharges(db.reservations, Deliver(db, r, writes).0.reservations)
    ensures Deliver(db, r, writes).0.inventory.Keys == db.inventory.Keys
  {
    hide Constraints;
  }

  lemma PayAndCancelKeepCharges(db: Db, o: nat, user: nat, cardOk: bool, now: int)
    requires Constraints(db)
    ensures SameCharges(db.reservations, Pay(db, o, user, cardOk, now).reservations)
    ensures Pay(db, o, user, cardOk, now).inventory.Keys == db.inventory.Keys
    ensures SameCharges(db.reservations, Cancel(db, o, user).reservations)
    ensures Cancel(db, o, user).inventory.Keys == db.inventory.Keys
  {
    assert References(db);
    hide Constraints;
  }

  lemma ExpiryKeepsCharges(db: Db, ids: set<nat>)
    ensures SameCharges(db.reservations, ExpireBulk(db, ids).reservations)
    ensures ExpireBulk(db, ids).inventory.Keys == db.inventory.Keys
  {
  }

  /** Cancelling looks for a hold under a row id, where none was ever written. */
  lemma CancelReturnsNothing(s: State, stock: map<nat, nat>, o: nat, user: nat)
    requires Constraints(s.db) && Ledger(s, stock)
    ensures Next(s, CancelOrder(o, user)).store == s.store
  {
    hide Constraints;
  }

  /** So does expiring. */
  lemma ExpiryReturnsNothing(s: State, stock: map<nat, nat>, ids: seq<nat>, active: set<nat>)
    requires Constraints(s.db) && Ledger(s, stock)
    ensures Next(s, ExpireRows(ids, active)).store == s.store
  {
    hide Constraints;
    if Rows(s.db, ids) {
      ReleaseRowsFindsNothing(s.store, s.db.reservations, ids, active, s.now);
    }
  }

  /** Requests move units between the counter, the flights and the rows. */
  lemma RequestKeepsLedger(s: State, step: Step, stock: map<nat, nat>)
    requires Constraints(s.db) && Ledger(s, stock)
    requires step.Arrive? || step.ReserveUnits? || step.Persist? || step.PersistFails? || step.Compensate?
          || step.CrashApi?
    ensures Ledger(Next(s, step), stock)
  {
    hide Constraints, Ledger, Arrived, UnitsReserved, Compensated, Persisted;
    match step
    case Arrive(user, sale, quantity, key) => ArriveKeeps(s, stock, user, sale, quantity, key);
    case ReserveUnits(f, ttl) => ReserveKeeps(s, stock, f, ttl);
    case Persist(f, ttl) => PersistKeeps(s, stock, f, ttl);
    case PersistFails(f) => if In(s, f, Holding) { MoveKeeps(s, stock, f, Failing); }
    case Compensate(f) => CompensateKeeps(s, stock, f);
    case CrashApi(f) => if In(s, f, Holding) || In(s, f, Failing) { MoveKeeps(s, stock, f, Lost); }
  }

  /** Transactions move none: they return nothing and recharge no row. */
  lemma TransactionKeepsLedger(s: State, step: Step, stock: map<nat, nat>)
    requires Constraints(s.db) && Ledger(s, stock) && IsTransaction(step)
    ensures Ledger(Next(s, step), stock)
  {
    hide Constraints, Ledger, SameCharges, Pay, Cancel, Deliver, ExpireBulk, ReleaseRows, Release, Rows;
    SameCharged(s.db.reservations);
    match step {
      case Consume(r, writes, _) => DeliverKeepsCharges(s.db, r, writes);
      case PayOrder(o, user, cardOk) => PayAndCancelKeepCharges(s.db, o, user, cardOk, s.now);
      case CancelOrder(o, user) =>
        PayAndCancelKeepCharges(s.db, o, user, true, s.now);
        CancelReturnsNothing(s, stock, o, user);
      case ExpireRows(ids, active) =>
        ExpiryKeepsCharges(s.db, Ids(ids));
        ExpiryReturnsNothing(s, stock, ids, active);
    }
    TablesOnlyKeep(s, Next(s, step), stock);
  }

  lemma SameCharged(rs: seq<Reservation>)
    ensures SameCharges(rs, rs)
  {
  }

  lemma StepKeepsLedger(s: State, step: Step, stock: map<nat, nat>)
    requires Constraints(s.db) && Ledger(s, stock)
    ensures Ledger(Next(s, step), stock)
  {
    if IsTransaction(step) {
      TransactionKeepsLedger(s, step, stock);
    } else {
      hide Constraints, Ledger, Modified;
      match step
      case ModifyQuantity(r, user, quantity, ttl) => ModifyKeeps(s, stock, r, user, quantity, ttl);
      case PublishDirectly(_) => TablesOnlyKeep(s, Next(s, step), stock);
      case PollEvent(_, _) => TablesOnlyKeep(s, Next(s, step), stock);
      case DeadLetter(_) => TablesOnlyKeep(s, Next(s, step), stock);
      case Tick(_) => TablesOnlyKeep(s, Next(s, step), stock);
      case _ => RequestKeepsLedger(s, step, stock);
    }
  }

  // ---------------------------------------------------------------- all runs

  lemma {:induction false} LedgerOverRuns(stock: map<nat, nat>, steps: seq<Step>)
    ensures Ledger(Run(Init(stock), steps), stock)
  {
    hide Next, Constraints;
    if steps == [] {
      assert Ledger(Init(stock), stock);
    } else {
      LedgerOverRuns(stock, steps[..|steps| - 1]);
      StepKeepsLedger(Run(Init(stock), steps[..|steps| - 1]), steps[|steps| - 1], stock);
    }
  }

  /**
   In every interleaving the counter stays non-negative and accounts, with the units in
   flight, the units of all rows and the units lost, for exactly the seeded stock.
   */
  lemma NoOversellAtTheCounter(stock: map<nat, nat>, steps: seq<Step>, sale: nat)
    requires sale in stock
    ensures var s := Run(Init(stock), steps);
      && 0 <= Counter(s, sale)
      && Counter(s, sale) + InFlight(s, sale) + LostWith(s, sale) + Charged(s, sale) == stock[sale]
      && 0 <= InFlight(s, sale) && 0 <= LostWith(s, sale)
      && Charged(s, sale) <= stock[sale]
  {
    hide Next, Constraints;
    LedgerOverRuns(stock, steps);
    var s := Run(Init(stock), steps);
    assert Accounted(s, sale) == stock[sale];
    SumNonNegative(s.flights, InFlightUnits(sale));
    SumNonNegative(s.flights, LostUnits(sale));
  }

  /** Whatever a run has done, a cancellation or an expiry batch leaves every counter as it was. */
  lemma ReleasesByRowIdNeverCredit(stock: map<nat, nat>, steps: seq<Step>, o: nat, user: nat,
                                   ids: seq<nat>, active: set<nat>)
    ensures var s := Run(Init(stock), steps);
      && Next(s, CancelOrder(o, user)).store == s.store
      && Next(s, ExpireRows(ids, active)).store == s.store
  {
    hide Next, Constraints;
    LedgerOverRuns(stock, steps);
    CancelReturnsNothing(Run(Init(stock), steps), stock, o, user);
    ExpiryReturnsNothing(Run(Init(stock), steps), stock, ids, active);
  }
}
