/** The option list of the fortune wheel: named restaurants with integer
    weights ("probability" in the stored list), and the weight sums that
    every ratio in the app is built from. */
module Restaurants {

  datatype Option<+T> = None | Some(value: T)

  /** One stored option. The admin inputs bound the weight to 1..100;
      a hand-edited list may hold zeros. */
  datatype Restaurant = Restaurant(name: string, probability: nat)

  /** The weights of the list, in order. */
  function Weights(rs: seq<Restaurant>): (w: seq<nat>)
    ensures |w| == |rs|
    ensures forall i :: 0 <= i < |rs| ==> w[i] == rs[i].probability
  {
    seq(|rs|, i requires 0 <= i < |rs| => rs[i].probability)
  }

  /** Python's sum() over a list of weights. */
  function Sum(w: seq<nat>): nat
  {
    if w == [] then 0 else Sum(w[..|w| - 1]) + w[|w| - 1]
  }

  /** Sum of all weights of the list. */
  function Total(rs: seq<Restaurant>): nat
  {
    Sum(Weights(rs))
  }

  /** Sum of the weights of the first k entries. */
  function Prefix(rs: seq<Restaurant>, k: nat): nat
    requires k <= |rs|
  {
    Sum(Weights(rs)[..k])
  }

  lemma SumStep(w: seq<nat>, k: nat)
    requires k < |w|
    ensures Sum(w[..k + 1]) == Sum(w[..k]) + w[k]
  {
    assert w[..k + 1][..k] == w[..k];
  }

  /** Adding the next entry adds exactly its weight. */
  lemma PrefixStep(rs: seq<Restaurant>, k: nat)
    requires k < |rs|
    ensures Prefix(rs, k + 1) == Prefix(rs, k) + rs[k].probability
  {
    SumStep(Weights(rs), k);
  }

  /** The prefix of the whole list is the total. */
  lemma PrefixAll(rs: seq<Restaurant>)
    ensures Prefix(rs, |rs|) == Total(rs)
  {
    assert Weights(rs)[..|rs|] == Weights(rs);
  }

  /** Prefix sums only grow along the list: for i <= j the first i
      weights sum to no more than the first j, by at least the weights
      in between. */
  lemma {:induction false} PrefixMonotone(rs: seq<Restaurant>, i: nat, j: nat)
    requires i <= j <= |rs|
    ensures Prefix(rs, i) <= Prefix(rs, j)
    ensures i < j ==> Prefix(rs, i) + rs[i].probability <= Prefix(rs, j)
    decreases j - i
  {
    if i < j {
      PrefixStep(rs, i);
      PrefixMonotone(rs, i + 1, j);
    }
  }

  /** Every prefix is bounded by the total. */
  lemma PrefixAtMostTotal(rs: seq<Restaurant>, k: nat)
    requires k <= |rs|
    ensures Prefix(rs, k) <= Total(rs)
  {
    PrefixMonotone(rs, k, |rs|);
    PrefixAll(rs);
  }

  /** The weights of two different entries together never exceed the total. */
  lemma TwoWeightsAtMostTotal(rs: seq<Restaurant>, i: nat, j: nat)
    requires i < j < |rs|
    ensures rs[i].probability + rs[j].probability <= Total(rs)
  {
    PrefixMonotone(rs, i, j);
    PrefixStep(rs, j);
    PrefixAtMostTotal(rs, j + 1);
  }

  /** The total is zero exactly when every weight is zero: the case that
      spin_wheel replaces by uniform weights. */
  lemma TotalZeroIffAllZero(rs: seq<Restaurant>)
    ensures Total(rs) == 0 <==> forall i :: 0 <= i < |rs| ==> rs[i].probability == 0
  {
    if Total(rs) == 0 {
      forall i | 0 <= i < |rs| ensures rs[i].probability == 0 {
        WeightAtMostTotal(rs, i);
      }
    }
    if forall i :: 0 <= i < |rs| ==> rs[i].probability == 0 {
      AllZeroSumsToZero(rs, |rs|);
      PrefixAll(rs);
    }
  }

  lemma WeightAtMostTotal(rs: seq<Restaurant>, i: nat)
    requires i < |rs|
    ensures rs[i].probability <= Total(rs)
  {
    PrefixStep(rs, i);
    PrefixAtMostTotal(rs, i + 1);
  }

  lemma {:induction false} AllZeroSumsToZero(rs: seq<Restaurant>, k: nat)
    requires k <= |rs|
    requires forall i :: 0 <= i < |rs| ==> rs[i].probability == 0
    ensures Prefix(rs, k) == 0
  {
    if k > 0 {
      PrefixStep(rs, k - 1);
      AllZeroSumsToZero(rs, k - 1);
    }
  }

  /** The weight bounds the admin inputs enforce (min_value=1, max_value=100). */
  ghost predicate InputBounds(rs: seq<Restaurant>)
  {
    forall i :: 0 <= i < |rs| ==> 1 <= rs[i].probability <= 100
  }

  /** Under the input bounds the total lies between n and 100 n, so a
      non-empty list always has a positive total and can be rendered. */
  lemma {:induction false} InputBoundsTotal(rs: seq<Restaurant>, k: nat)
    requires InputBounds(rs) && k <= |rs|
    ensures k <= Prefix(rs, k) <= 100 * k
  {
    if k > 0 {
      PrefixStep(rs, k - 1);
      InputBoundsTotal(rs, k - 1);
    }
  }

  lemma InputBoundsRenderable(rs: seq<Restaurant>)
    requires InputBounds(rs)
    ensures |rs| <= Total(rs) <= 100 * |rs|
  {
    InputBoundsTotal(rs, |rs|);
    PrefixAll(rs);
  }
}
