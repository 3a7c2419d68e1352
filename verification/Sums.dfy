/** Sums of integer weights over rows of a table and over the values of a map. */
module Sums {

  function Sum<T>(s: seq<T>, f: T -> int): int {
    if s == [] then 0 else Sum(s[..|s| - 1], f) + f(s[|s| - 1])
  }

  lemma SumAppend<T>(s: seq<T>, x: T, f: T -> int)
    ensures Sum(s + [x], f) == Sum(s, f) + f(x)
  {
    assert (s + [x])[..|s|] == s;
  }

  /** Two tables of the same length whose weights agree everywhere but at row `i`. */
  lemma {:induction false} SumOneChange<T>(s: seq<T>, t: seq<T>, f: T -> int, g: T -> int, i: nat)
    requires |s| == |t| && i < |s|
    requires forall j :: 0 <= j < |s| && j != i ==> f(s[j]) == g(t[j])
    ensures Sum(t, g) == Sum(s, f) - f(s[i]) + g(t[i])
  {
    var n := |s| - 1;
    if i == n {
      SumCongruent(s[..n], t[..n], f, g);
    } else {
      SumOneChange(s[..n], t[..n], f, g, i);
    }
  }

  lemma {:induction false} SumCongruent<T>(s: seq<T>, t: seq<T>, f: T -> int, g: T -> int)
    requires |s| == |t|
    requires forall j :: 0 <= j < |s| ==> f(s[j]) == g(t[j])
    ensures Sum(s, f) == Sum(t, g)
  {
    if s != [] {
      SumCongruent(s[..|s| - 1], t[..|s| - 1], f, g);
    }
  }

  lemma {:induction false} SumAtMost<T>(s: seq<T>, f: T -> int, g: T -> int)
    requires forall j :: 0 <= j < |s| ==> f(s[j]) <= g(s[j])
    ensures Sum(s, f) <= Sum(s, g)
  {
    if s != [] {
      SumAtMost(s[..|s| - 1], f, g);
    }
  }

  lemma {:induction false} SumNonNegative<T>(s: seq<T>, f: T -> int)
    requires forall j :: 0 <= j < |s| ==> 0 <= f(s[j])
    ensures 0 <= Sum(s, f)
    ensures forall j :: 0 <= j < |s| ==> f(s[j]) <= Sum(s, f)
  {
    if s != [] {
      SumNonNegative(s[..|s| - 1], f);
    }
  }

  /** The sum of all the values of a map. */
  ghost function SumMap<K>(m: map<K, int>): int {
    if m == map[] then 0 else
      var k :| k in m;
      m[k] + SumMap(m - {k})
  }

  lemma {:induction false} SumMapTake<K>(m: map<K, int>, k: K)
    requires k in m
    ensures SumMap(m) == m[k] + SumMap(m - {k})
    decreases |m|
  {
    var first :| first in m && SumMap(m) == m[first] + SumMap(m - {first});
    if first != k {
      SumMapTake(m - {first}, k);
      SumMapTake(m - {k}, first);
      assert (m - {first}) - {k} == (m - {k}) - {first};
    }
  }

  lemma SumMapPut<K>(m: map<K, int>, k: K, v: int)
    ensures SumMap(m[k := v]) == SumMap(m) - (if k in m then m[k] else 0) + v
  {
    SumMapTake(m[k := v], k);
    assert m[k := v] - {k} == m - {k};
    if k in m {
      SumMapTake(m, k);
    } else {
      assert m - {k} == m;
    }
  }
}
