/** spin_wheel: weight normalisation and the categorical draw of one name.
    The draw's randomness is the uniform variate u in [0, 1) that the
    library's generator supplies; it is a parameter here. */
module Selector {
  import opened Restaurants

  /** Sum of a list of reals. */
  function SumR(p: seq<real>): real
  {
    if p == [] then 0.0 else SumR(p[..|p| - 1]) + p[|p| - 1]
  }

  /** Sum of the first k entries: the cumulative weight the draw bisects on. */
  function Cum(p: seq<real>, k: nat): real
    requires k <= |p|
  {
    SumR(p[..k])
  }

  lemma CumStep(p: seq<real>, k: nat)
    requires k < |p|
    ensures Cum(p, k + 1) == Cum(p, k) + p[k]
  {
    assert p[..k + 1][..k] == p[..k];
  }

  lemma CumAll(p: seq<real>)
    ensures Cum(p, |p|) == SumR(p)
  {
    assert p[..|p|] == p;
  }

  ghost predicate NonNegative(p: seq<real>)
  {
    forall k :: 0 <= k < |p| ==> 0.0 <= p[k]
  }

  /** With non-negative entries the cumulative sums never decrease, and
      from i to a later j they grow by at least p[i]. */
  lemma {:induction false} CumMonotone(p: seq<real>, i: nat, j: nat)
    requires NonNegative(p) && i <= j <= |p|
    ensures Cum(p, i) <= Cum(p, j)
    ensures i < j ==> Cum(p, i) + p[i] <= Cum(p, j)
    decreases j - i
  {
    if i < j {
      CumStep(p, i);
      CumMonotone(p, i + 1, j);
    }
  }

  lemma {:induction false} SumOfOnes(w: seq<nat>)
    requires forall i :: 0 <= i < |w| ==> w[i] == 1
    ensures Sum(w) == |w|
  {
    if w != [] {
      SumOfOnes(w[..|w| - 1]);
    }
  }

  /** The weights the draw uses: the stored ones, or 1 for every entry
      when they sum to zero. Their sum, the divisor of the normalisation,
      is the stored total, or the list's length after the fallback. */
  function DrawWeights(rs: seq<Restaurant>): (w: seq<nat>)
    ensures |w| == |rs|
    ensures Total(rs) > 0 ==> w == Weights(rs)
    ensures Total(rs) == 0 ==> forall i :: 0 <= i < |w| ==> w[i] == 1
    ensures Sum(w) == if Total(rs) == 0 then |rs| else Total(rs)
  {
    if Total(rs) == 0 then
      var ones := seq(|rs|, _ => 1);
      SumOfOnes(ones);
      ones
    else Weights(rs)
  }

  /** Each weight divided by t. */
  function Scale(w: seq<nat>, t: real): (p: seq<real>)
    requires t != 0.0
    ensures |p| == |w|
  {
    seq(|w|, i requires 0 <= i < |w| => w[i] as real / t)
  }

  /** Dividing every weight by t divides their sum by t. */
  lemma {:induction false} ScaleSum(w: seq<nat>, t: real, k: nat)
    requires t != 0.0 && k <= |w|
    ensures Cum(Scale(w, t), k) == Sum(w[..k]) as real / t
  {
    if k > 0 {
      ScaleSum(w, t, k - 1);
      CumStep(Scale(w, t), k - 1);
      SumStep(w, k - 1);
    }
  }

  /** The normalised weights of spin_wheel: each weight over the total, or
      1/n each when the weights sum to zero. */
  function Normalize(rs: seq<Restaurant>): (p: seq<real>)
    ensures |p| == |rs|
    ensures Total(rs) > 0 ==>
      forall i :: 0 <= i < |rs| ==> p[i] == rs[i].probability as real / Total(rs) as real
    ensures Total(rs) == 0 ==>
      forall i :: 0 <= i < |rs| ==> p[i] == 1.0 / |rs| as real
  {
    if rs == [] then []
    else
      Scale(DrawWeights(rs), Sum(DrawWeights(rs)) as real)
  }

  /** Weights with a positive sum, each divided by that sum, add up to 1. */
  lemma ScaleByTotal(w: seq<nat>)
    requires Sum(w) > 0
    ensures SumR(Scale(w, Sum(w) as real)) == 1.0
  {
    var t := Sum(w) as real;
    ScaleSum(w, t, |w|);
    assert w[..|w|] == w;
    CumAll(Scale(w, t));
    assert t / t == 1.0;
  }

  /** The normalised weights of a non-empty list sum to 1. */
  lemma NormalizedSumsToOne(rs: seq<Restaurant>)
    requires rs != []
    ensures SumR(Normalize(rs)) == 1.0
  {
    ScaleByTotal(DrawWeights(rs));
  }

  lemma ShareAtMostOne(a: real, t: real)
    requires 0.0 <= a <= t && 0.0 < t
    ensures 0.0 <= a / t <= 1.0
  {
  }

  /** Each normalised weight lies in [0, 1]. */
  lemma NormalizedBounds(rs: seq<Restaurant>, i: nat)
    requires i < |rs|
    ensures 0.0 <= Normalize(rs)[i] <= 1.0
  {
    if Total(rs) > 0 {
      WeightAtMostTotal(rs, i);
      ShareAtMostOne(rs[i].probability as real, Total(rs) as real);
    }
  }

  /** The normalised weights of a non-empty list form a distribution. */
  lemma NormalizedIsDistribution(rs: seq<Restaurant>)
    requires rs != []
    ensures NonNegative(Normalize(rs))
    ensures SumR(Normalize(rs)) == 1.0
  {
    NormalizedSumsToOne(rs);
    forall i | 0 <= i < |rs| ensures 0.0 <= Normalize(rs)[i] {
      NormalizedBounds(rs, i);
    }
  }

  /** bisect_right over the cumulative weights from index i: the first
      index j in [i, n-1) whose cumulative weight exceeds x, else n-1. */
  function BisectFrom(p: seq<real>, x: real, i: nat): (r: nat)
    requires i < |p|
    ensures i <= r < |p|
    ensures forall j :: i < j <= r ==> Cum(p, j) <= x
    ensures r < |p| - 1 ==> x < Cum(p, r + 1)
    decreases |p| - i
  {
    if i == |p| - 1 || x < Cum(p, i + 1) then i else BisectFrom(p, x, i + 1)
  }

  /** The index random.choices picks for the uniform variate u: the
      variate is scaled by the last cumulative weight and located by
      bisection, with the search capped at the last index. */
  function Choose(p: seq<real>, u: real): (i: nat)
    requires p != []
    ensures i < |p|
  {
    BisectFrom(p, u * Cum(p, |p|), 0)
  }

  /** Over a distribution, u picks index i exactly when u falls in
      [Cum(i), Cum(i+1)), an interval of length p[i]: entry i is drawn
      with probability p[i]. */
  lemma ChooseIffInInterval(p: seq<real>, u: real, i: nat)
    requires p != [] && NonNegative(p) && SumR(p) == 1.0
    requires 0.0 <= u < 1.0 && i < |p|
    ensures Choose(p, u) == i <==> Cum(p, i) <= u < Cum(p, i + 1)
    ensures Cum(p, i + 1) - Cum(p, i) == p[i]
  {
    CumAll(p);
    CumStep(p, i);
    var r := Choose(p, u);
    assert Cum(p, |p|) == 1.0;
    assert u * Cum(p, |p|) == u;
    // r itself lies in its interval
    if r > 0 {
      assert Cum(p, r) <= u;
    }
    if r == |p| - 1 {
      assert u < Cum(p, r + 1);
    }
    if r != i && Cum(p, i) <= u < Cum(p, i + 1) {
      if r < i {
        CumMonotone(p, r + 1, i);
      }
      assert false;
    }
  }

  /** spin_wheel: no result for an empty list; otherwise the name of the
      entry the draw picks. */
  function SpinWheel(rs: seq<Restaurant>, u: real): (r: Option<string>)
    ensures r.None? <==> rs == []
    ensures r.Some? ==> exists i :: 0 <= i < |rs| && rs[i].name == r.value
  {
    if rs == [] then None
    else
      var i := Choose(Normalize(rs), u);
      Some(rs[i].name)
  }

  /** For a variate in [0, 1) the drawn entry has positive normalised
      weight, so an entry of weight 0 is never drawn while another weight
      is positive. */
  lemma SpinWheelDrawsPositiveWeight(rs: seq<Restaurant>, u: real)
    requires rs != [] && 0.0 <= u < 1.0
    ensures var i := Choose(Normalize(rs), u);
      SpinWheel(rs, u) == Some(rs[i].name) && Normalize(rs)[i] > 0.0
  {
    var p := Normalize(rs);
    NormalizedIsDistribution(rs);
    ChooseIffInInterval(p, u, Choose(p, u));
  }

  /** Every entry of positive weight can be drawn: some variate in [0, 1)
      picks it. */
  lemma EveryPositiveWeightReachable(rs: seq<Restaurant>, i: nat)
    requires i < |rs| && Normalize(rs)[i] > 0.0
    ensures exists u :: 0.0 <= u < 1.0 && Choose(Normalize(rs), u) == i
  {
    var p := Normalize(rs);
    NormalizedIsDistribution(rs);
    CumMonotone(p, 0, i);
    CumMonotone(p, i + 1, |p|);
    CumStep(p, i);
    CumAll(p);
    assert Cum(p, 0) == 0.0;
    var u := Cum(p, i);
    ChooseIffInInterval(p, u, i);
  }
}
