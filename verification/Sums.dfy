/** Sums of natural numbers over the keys of a finite map. */
module Sums {

  ghost function Pick(keys: set<string>): string
    requires keys != {}
  {
    var k :| k in keys; k
  }

  ghost function Sum(cost: map<string, nat>): nat
    decreases |cost|
  {
    if cost == map[] then 0
    else
      var k := Pick(cost.Keys);
      SmallerWithout(cost, k);
      cost[k] + Sum(cost - {k})
  }

  lemma SmallerWithout(cost: map<string, nat>, k: string)
    requires k in cost
    ensures |cost - {k}| == |cost| - 1
  {
    assert (cost - {k}).Keys == cost.Keys - {k};
  }

  /** Any key may be taken out first. */
  lemma {:induction false} SumWithout(cost: map<string, nat>, k: string)
    requires k in cost
    ensures Sum(cost) == cost[k] + Sum(cost - {k})
    decreases |cost|
  {
    var p := Pick(cost.Keys);
    SmallerWithout(cost, p);
    SmallerWithout(cost, k);
    if p != k {
      SumWithout(cost - {p}, k);
      SumWithout(cost - {k}, p);
      assert cost - {p} - {k} == cost - {k} - {p};
    }
  }

  lemma SumChanged(cost: map<string, nat>, cost': map<string, nat>, k: string)
    requires k in cost && cost'.Keys == cost.Keys
    requires forall n :: n in cost && n != k ==> cost'[n] == cost[n]
    ensures Sum(cost') + cost[k] == Sum(cost) + cost'[k]
  {
    SumWithout(cost, k);
    SumWithout(cost', k);
    assert cost - {k} == cost' - {k};
  }

  lemma {:induction false} SumOfBits(cost: map<string, nat>)
    requires forall n :: n in cost ==> cost[n] <= 1
    ensures Sum(cost) <= |cost|
    decreases |cost|
  {
    if cost != map[] {
      var p := Pick(cost.Keys);
      SmallerWithout(cost, p);
      SumOfBits(cost - {p});
    }
  }

  lemma {:induction false} SumAtMost(cost: map<string, nat>, cost': map<string, nat>)
    requires cost'.Keys == cost.Keys && forall n :: n in cost ==> cost'[n] <= cost[n]
    ensures Sum(cost') <= Sum(cost)
    decreases |cost|
  {
    if cost != map[] {
      var p := Pick(cost.Keys);
      SmallerWithout(cost, p);
      SumWithout(cost', p);
      SumAtMost(cost - {p}, cost' - {p});
    }
  }
}
