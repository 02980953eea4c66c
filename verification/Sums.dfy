// Sums over finite maps, used by the transfer accounting.
module Sums {
  import opened Wrappers

  ghost function Sum(m: map<int, nat>): nat
    decreases |m|
  {
    if m.Keys == {} then 0
    else
      EmptyOrInhabited(m.Keys);
      var k :| k in m.Keys;
      m[k] + Sum(m - {k})
  }

  // The sum does not depend on the order in which keys are taken.
  lemma {:induction false} SumTake(m: map<int, nat>, k: int)
    requires k in m
    ensures Sum(m) == m[k] + Sum(m - {k})
    decreases |m|
  {
    EmptyOrInhabited(m.Keys);
    var j :| j in m.Keys && Sum(m) == m[j] + Sum(m - {j});
    if j != k {
      SumTake(m - {j}, k);
      SumTake(m - {k}, j);
      assert m - {j} - {k} == m - {k} - {j};
    }
  }

  lemma SumPut(m: map<int, nat>, k: int, v: nat)
    requires k !in m
    ensures Sum(m[k := v]) == Sum(m) + v
  {
    SumTake(m[k := v], k);
    assert m[k := v] - {k} == m;
  }

  lemma {:induction false} SumMonotone(m: map<int, nat>, n: map<int, nat>)
    requires m.Keys <= n.Keys && forall k :: k in m ==> m[k] <= n[k]
    ensures Sum(m) <= Sum(n)
    decreases |n|
  {
    EmptyOrInhabited(n.Keys);
    if k :| k in n.Keys {
      SumTake(n, k);
      if k in m {
        SumTake(m, k);
        SumMonotone(m - {k}, n - {k});
      } else {
        SumMonotone(m, n - {k});
      }
    } else {
      assert m.Keys == {};
    }
  }
}
