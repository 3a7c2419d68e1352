/** The reconciliation worker: Redis counters against the inventory table. */
module Reconciliation {

  const AUTO_FIX_THRESHOLD := 10

  /** One row of the query: a sale with status 'active' or 'scheduled' and its inventory. */
  datatype Sale = Sale(id: nat, active: bool, total: int, reserved: int, sold: int) {
    function Expected(): int {
      var left := total - reserved - sold;
      if left < 0 then 0 else left
    }
  }

  datatype Results = Results(checked: nat, ok: nat, drifted: nat, fixed: nat, reseeded: nat)

  datatype Key = Missing | Value(n: int)

  function Lookup(counters: map<nat, int>, id: nat): Key {
    if id in counters then Value(counters[id]) else Missing
  }

  function Drift(counter: int, expected: int): nat {
    if counter < expected then expected - counter else counter - expected
  }

  /** Present if the sale is active, and less than the fix threshold away if present. */
  predicate Reconciled(counters: map<nat, int>, sale: Sale) {
    match Lookup(counters, sale.id)
    case Missing => !sale.active
    case Value(n) => Drift(n, sale.Expected()) < AUTO_FIX_THRESHOLD
  }

  predicate DistinctSales(sales: seq<Sale>) {
    forall i, j :: 0 <= i < j < |sales| ==> sales[i].id != sales[j].id
  }

  // ---------------------------------------------------------------- the loop

  datatype Outcome = Outcome(counters: map<nat, int>, results: Results)

  /** One iteration. */
  function ReconcileOne(o: Outcome, sale: Sale): Outcome {
    var r := o.results.(checked := o.results.checked + 1);
    var repaired := o.counters[sale.id := sale.Expected()];
    match Lookup(o.counters, sale.id)
    case Missing =>
      if sale.active then Outcome(repaired, r.(reseeded := r.reseeded + 1)) else Outcome(o.counters, r)
    case Value(n) =>
      if Drift(n, sale.Expected()) == 0 then Outcome(o.counters, r.(ok := r.ok + 1))
      else if Drift(n, sale.Expected()) < AUTO_FIX_THRESHOLD then Outcome(o.counters, r.(drifted := r.drifted + 1))
      else Outcome(repaired, r.(drifted := r.drifted + 1, fixed := r.fixed + 1))
  }

  const NONE_YET := Results(0, 0, 0, 0, 0)

  function Reconcile(counters: map<nat, int>, sales: seq<Sale>): Outcome {
    if sales == [] then Outcome(counters, NONE_YET)
    else ReconcileOne(Reconcile(counters, sales[..|sales| - 1]), sales[|sales| - 1])
  }

  class ReconciliationWorker {
    var counters: map<nat, int>

    constructor (counters: map<nat, int>)
      ensures this.counters == counters
    {
      this.counters := counters;
    }

    /** reconcile_inventory, when no Redis call fails. */
    method ReconcileInventory(sales: seq<Sale>) returns (results: Results)
      modifies this
      ensures Outcome(counters, results) == Reconcile(old(counters), sales)
    {
      var checked, ok, drifted, fixed, reseeded := 0, 0, 0, 0, 0;
      for i := 0 to |sales|
        invariant Outcome(counters, Results(checked, ok, drifted, fixed, reseeded))
          == Reconcile(old(counters), sales[..i])
      {
        var sale := sales[i];
        assert sales[..i + 1][..i] == sales[..i];
        var expected := sale.total - sale.reserved - sale.sold;
        if expected < 0 {
          expected := 0;
        }
        checked := checked + 1;
        if sale.id !in counters {
          if sale.active {
            counters := counters[sale.id := expected];
            reseeded := reseeded + 1;
          }
          continue;
        }
        var drift := counters[sale.id] - expected;
        if drift < 0 {
          drift := -drift;
        }
        if drift == 0 {
          ok := ok + 1;
          continue;
        }
        drifted := drifted + 1;
        if drift >= AUTO_FIX_THRESHOLD {
          counters := counters[sale.id := expected];
          fixed := fixed + 1;
        }
      }
      assert sales[..|sales|] == sales;
      results := Results(checked, ok, drifted, fixed, reseeded);
    }
  }

  // ---------------------------------------------------------------- what a run achieves

  lemma {:induction false} OthersUntouched(counters: map<nat, int>, sales: seq<Sale>, id: nat)
    requires forall i :: 0 <= i < |sales| ==> sales[i].id != id
    ensures Lookup(Reconcile(counters, sales).counters, id) == Lookup(counters, id)
  {
    if sales != [] {
      OthersUntouched(counters, sales[..|sales| - 1], id);
    }
  }

  /** Each sale ends as it was if it was close enough, and at its expected value if not. */
  lemma {:induction false} EachSaleIsReconciled(counters: map<nat, int>, sales: seq<Sale>, i: nat)
    requires DistinctSales(sales) && i < |sales|
    ensures var after, sale := Reconcile(counters, sales).counters, sales[i];
      var left := sale.total - sale.reserved - sale.sold;
      var expected := if left < 0 then 0 else left;
      && Reconciled(after, sale)
      && if sale.id in counters then
           && sale.id in after
           && after[sale.id] == if -10 < counters[sale.id] - expected < 10 then counters[sale.id] else expected
         else if sale.active then sale.id in after && after[sale.id] == expected
         else sale.id !in after
  {
    var n := |sales| - 1;
    if i < n {
      EachSaleIsReconciled(counters, sales[..n], i);
      assert sales[n].id != sales[i].id;
    } else {
      OthersUntouched(counters, sales[..n], sales[n].id);
    }
  }

  lemma {:induction false} NothingToRepair(counters: map<nat, int>, sales: seq<Sale>)
    requires forall i :: 0 <= i < |sales| ==> Reconciled(counters, sales[i])
    ensures var o := Reconcile(counters, sales);
      o.counters == counters && o.results.fixed == 0 && o.results.reseeded == 0
  {
    if sales != [] {
      NothingToRepair(counters, sales[..|sales| - 1]);
    }
  }

  /** An immediate second run changes nothing and repairs nothing. */
  lemma SecondRunChangesNothing(counters: map<nat, int>, sales: seq<Sale>)
    requires DistinctSales(sales)
    ensures var once := Reconcile(counters, sales).counters; var again := Reconcile(once, sales);
      again.counters == once && again.results.fixed == 0 && again.results.reseeded == 0
  {
    var once := Reconcile(counters, sales).counters;
    forall i | 0 <= i < |sales| ensures Reconciled(once, sales[i]) {
      EachSaleIsReconciled(counters, sales, i);
    }
    NothingToRepair(once, sales);
  }

  function Count<T>(s: seq<T>, p: T -> bool): nat {
    if s == [] then 0 else Count(s[..|s| - 1], p) + if p(s[|s| - 1]) then 1 else 0
  }

  /** How far the sale's counter is from max(0, total - reserved - sold). */
  function Off(n: int, sale: Sale): nat {
    var left := sale.total - sale.reserved - sale.sold;
    Drift(n, if left < 0 then 0 else left)
  }

  /**
   Each result is the number of the sales it is for: keys that are exact, that drifted at all, that drifted by
   ten units or more and were set right, and active sales without a key, which were given one.
   */
  lemma {:induction false} ResultsAddUp(counters: map<nat, int>, sales: seq<Sale>)
    requires DistinctSales(sales)
    ensures var r := Reconcile(counters, sales).results;
      && r.checked == |sales| == r.ok + r.drifted + Count(sales, (s: Sale) => s.id !in counters)
      && r.ok == Count(sales, (s: Sale) => s.id in counters && Off(counters[s.id], s) == 0)
      && r.drifted == Count(sales, (s: Sale) => s.id in counters && Off(counters[s.id], s) != 0)
      && r.fixed == Count(sales, (s: Sale) => s.id in counters && Off(counters[s.id], s) >= 10)
      && r.reseeded == Count(sales, (s: Sale) => s.id !in counters && s.active)
  {
    if sales != [] {
      var n := |sales| - 1;
      ResultsAddUp(counters, sales[..n]);
      OthersUntouched(counters, sales[..n], sales[n].id);
    }
  }
}
