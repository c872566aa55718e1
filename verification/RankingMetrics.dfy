/** Recall and nDCG as the evaluation harness computes them, for any decreasing discount. */
module RankingMetrics {
  import opened Collections
  import opened Option

  datatype MetricError = EmptyGoldSet

  /** Any positive, strictly decreasing function of the rank, of which the harness's logarithm is one. */
  type Discount = nat -> real

  ghost predicate IsDiscount(d: Discount) {
    forall i: nat, j: nat :: 0 < i < j ==> d(i) > d(j) > 0.0
  }

  function Top(retrieved: seq<string>, k: nat): seq<string> {
    if k <= |retrieved| then retrieved[..k] else retrieved
  }

  /** Positions that hold a relevant item. */
  function Found(items: seq<string>, relevant: set<string>): nat {
    if items == [] then 0
    else Found(items[..|items| - 1], relevant) + if items[|items| - 1] in relevant then 1 else 0
  }

  /** Relevant items that appear. */
  function Covered(items: seq<string>, relevant: set<string>): set<string> {
    set x | x in items && x in relevant
  }

  /** No relevant item appears twice. */
  predicate NoRepeats(items: seq<string>, relevant: set<string>) {
    forall i, j :: 0 <= i < j < |items| && items[i] in relevant ==> items[i] != items[j]
  }

  function Recall(retrieved: seq<string>, relevant: set<string>, k: nat): Result<real, MetricError> {
    if relevant == {} then Err(EmptyGoldSet)
    else Ok(Found(Top(retrieved, k), relevant) as real / |relevant| as real)
  }

  method RecallAtK(retrieved: seq<string>, relevant: set<string>, k: nat) returns (r: Result<real, MetricError>)
    ensures r == Recall(retrieved, relevant, k)
  {
    if relevant == {} {
      return Err(EmptyGoldSet);
    }
    var found: nat := 0;
    var top := Top(retrieved, k);
    for i := 0 to |top|
      invariant found == Found(top[..i], relevant)
    {
      assert top[..i + 1][..i] == top[..i];
      if top[i] in relevant {
        found := found + 1;
      }
    }
    assert top[..|top|] == top;
    r := Ok(found as real / |relevant| as real);
  }

  function Gain(items: seq<string>, relevant: set<string>, d: Discount): real {
    if items == [] then 0.0
    else Gain(items[..|items| - 1], relevant, d) + if items[|items| - 1] in relevant then d(|items|) else 0.0
  }

  function Ideal(n: nat, d: Discount): real {
    if n == 0 then 0.0 else Ideal(n - 1, d) + d(n)
  }

  function Min(a: nat, b: nat): nat {
    if a < b then a else b
  }

  function Ndcg(retrieved: seq<string>, relevant: set<string>, k: nat, d: Discount): Result<real, MetricError> {
    if relevant == {} then Err(EmptyGoldSet)
    else
      var ideal := Ideal(Min(|relevant|, k), d);
      Ok(if ideal == 0.0 then 0.0 else Gain(Top(retrieved, k), relevant, d) / ideal)
  }

  method NdcgAtK(retrieved: seq<string>, relevant: set<string>, k: nat, d: Discount)
    returns (r: Result<real, MetricError>)
    ensures r == Ndcg(retrieved, relevant, k, d)
  {
    if relevant == {} {
      return Err(EmptyGoldSet);
    }
    var top := Top(retrieved, k);
    var gain := 0.0;
    for i := 0 to |top|
      invariant gain == Gain(top[..i], relevant, d)
    {
      assert top[..i + 1][..i] == top[..i] && |top[..i + 1]| == i + 1;
      if top[i] in relevant {
        gain := gain + d(i + 1);
      }
    }
    assert top[..|top|] == top;
    var ideal := 0.0;
    var most := if |relevant| < k then |relevant| else k;
    for i := 0 to most
      invariant ideal == Ideal(i, d)
    {
      ideal := ideal + d(i + 1);
    }
    r := Ok(if ideal == 0.0 then 0.0 else gain / ideal);
  }

  // ------------------------------------------------------------------ recall

  /** Positions are at least items, and are as many exactly when no relevant item is repeated. */
  lemma {:induction false} FoundCounts(items: seq<string>, relevant: set<string>)
    ensures |Covered(items, relevant)| <= Found(items, relevant) <= |items|
    ensures |Covered(items, relevant)| == Found(items, relevant) <==> NoRepeats(items, relevant)
    ensures |Covered(items, relevant)| <= |relevant|
  {
    if items == [] {
      assert Covered(items, relevant) == {};
    } else {
      var init, last := items[..|items| - 1], items[|items| - 1];
      FoundCounts(init, relevant);
      CoveredNext(items, relevant);
      RepeatsNext(items, relevant);
      SubsetCount(Covered(items, relevant), relevant);
    }
  }

  lemma CoveredNext(items: seq<string>, relevant: set<string>)
    requires items != []
    ensures var init, last := items[..|items| - 1], items[|items| - 1];
            Covered(items, relevant)
            == if last in relevant then Covered(init, relevant) + {last} else Covered(init, relevant)
    ensures var init, last := items[..|items| - 1], items[|items| - 1];
            last in Covered(init, relevant) <==> last in init && last in relevant
  {
    assert items == items[..|items| - 1] + [items[|items| - 1]];
  }

  lemma RepeatsNext(items: seq<string>, relevant: set<string>)
    requires items != []
    ensures var init, last := items[..|items| - 1], items[|items| - 1];
            NoRepeats(items, relevant) <==> NoRepeats(init, relevant) && (last in relevant ==> last !in init)
  {
    var init, last := items[..|items| - 1], items[|items| - 1];
    if last in relevant && last in init {
      var i :| 0 <= i < |init| && init[i] == last;
      assert items[i] == items[|items| - 1];
    }
  }

  /**
   Recall is never below the fraction of the relevant items that appear in the top `k`; it
   is that fraction exactly when no relevant item is repeated there, and at most 1 exactly
   when no more positions than relevant items are relevant.
   */
  lemma RecallIsAFraction(retrieved: seq<string>, relevant: set<string>, k: nat)
    requires relevant != {}
    ensures var r := Recall(retrieved, relevant, k).value;
            var covered := |Covered(Top(retrieved, k), relevant)| as real / |relevant| as real;
            && 0.0 <= covered <= r && covered <= 1.0
            && (r == covered <==> NoRepeats(Top(retrieved, k), relevant))
            && (r <= 1.0 <==> Found(Top(retrieved, k), relevant) <= |relevant|)
  {
    var top := Top(retrieved, k);
    FoundCounts(top, relevant);
    var n := |relevant| as real;
    DivOrder(|Covered(top, relevant)| as real, Found(top, relevant) as real, n);
    DivOrder(0.0, |Covered(top, relevant)| as real, n);
    DivOrder(|Covered(top, relevant)| as real, n, n);
    if Found(top, relevant) <= |relevant| {
      DivOrder(Found(top, relevant) as real, n, n);
    } else {
      Above(Found(top, relevant) as real, n);
    }
  }

  lemma DivOrder(a: real, b: real, n: real)
    requires a <= b && n > 0.0
    ensures a / n <= b / n && (a / n == b / n <==> a == b)
    ensures n / n == 1.0 && 0.0 / n == 0.0
  {
    assert a == (a / n) * n && b == (b / n) * n;
  }

  /** A repeated item can take recall to any height. */
  lemma {:induction false} RepeatedRecall(item: string, n: nat)
    ensures Found(seq(n, _ => item), {item}) == n
    ensures n > 0 ==> Recall(seq(n, _ => item), {item}, n) == Ok(n as real)
  {
    if n > 0 {
      RepeatedRecall(item, n - 1);
      assert seq(n, _ => item)[..n - 1] == seq(n - 1, _ => item);
      assert |{item}| as real == 1.0;
      assert Top(seq(n, _ => item), n) == seq(n, _ => item);
      assert n as real / 1.0 == n as real;
    }
  }

  // -------------------------------------------------------------------- ndcg

  lemma {:induction false} IdealGrows(m: nat, n: nat, d: Discount)
    requires IsDiscount(d) && m <= n
    ensures Ideal(m, d) <= Ideal(n, d) && (m < n ==> Ideal(m, d) < Ideal(n, d))
    ensures Ideal(m, d) >= 0.0
    decreases n
  {
    if n > 0 {
      assert d(n) > d(n + 1) > 0.0;
      if m < n {
        IdealGrows(m, n - 1, d);
      } else {
        IdealGrows(m - 1, n - 1, d);
      }
    }
  }

  /** The relevant positions are the first ones. */
  predicate Packed(items: seq<string>, relevant: set<string>) {
    forall i :: 0 <= i < Found(items, relevant) <= |items| ==> items[i] in relevant
  }

  /** Moving relevant items forward can only add gain; none is added exactly when they are all in front. */
  lemma {:induction false} GainAtMostIdeal(items: seq<string>, relevant: set<string>, d: Discount)
    requires IsDiscount(d)
    ensures Found(items, relevant) <= |items|
    ensures 0.0 <= Gain(items, relevant, d) <= Ideal(Found(items, relevant), d)
    ensures Gain(items, relevant, d) == Ideal(Found(items, relevant), d) <==> Packed(items, relevant)
  {
    if items != [] {
      var init, last := items[..|items| - 1], items[|items| - 1];
      GainAtMostIdeal(init, relevant, d);
      PackedNext(items, relevant);
      var c, n := Found(init, relevant), |items|;
      assert d(n) > d(n + 1) > 0.0;
      if last in relevant && c + 1 < n {
        assert d(c + 1) > d(n);
      }
    }
  }

  lemma PackedNext(items: seq<string>, relevant: set<string>)
    requires items != [] && Found(items[..|items| - 1], relevant) < |items|
    ensures var init, last := items[..|items| - 1], items[|items| - 1];
            Packed(items, relevant)
            <==> if last in relevant then Packed(init, relevant) && Found(init, relevant) == |init|
              else Packed(init, relevant)
  {
    var init, last := items[..|items| - 1], items[|items| - 1];
    var c := Found(init, relevant);
    assert forall i :: 0 <= i < |init| ==> items[i] == init[i];
    if last in relevant && Packed(items, relevant) && c < |init| {
      FoundAtLeast(init, relevant, c + 1);
    }
  }

  lemma {:induction false} FoundAtLeast(items: seq<string>, relevant: set<string>, m: nat)
    requires m <= |items| && forall i :: 0 <= i < m ==> items[i] in relevant
    ensures Found(items, relevant) >= m
  {
    if items != [] {
      FoundAtLeast(items[..|items| - 1], relevant, if m == |items| then m - 1 else m);
    }
  }

  /** The best a ranking can start. */
  predicate StartsRelevant(items: seq<string>, relevant: set<string>, m: nat) {
    m <= |items| && forall i :: 0 <= i < m ==> items[i] in relevant
  }

  lemma StartsRelevantIff(items: seq<string>, relevant: set<string>, m: nat)
    requires Found(items, relevant) <= m && Found(items, relevant) <= |items|
    ensures StartsRelevant(items, relevant, m) <==> Found(items, relevant) == m && Packed(items, relevant)
  {
    if StartsRelevant(items, relevant, m) {
      FoundAtLeast(items, relevant, m);
    }
  }

  /**
   With no more relevant positions in the top `k` than relevant items, the metric lies
   between 0 and 1, and is 1 exactly when the ranking starts with as many relevant items
   as there can be.
   */
  lemma NdcgIsNormalised(retrieved: seq<string>, relevant: set<string>, k: nat, d: Discount)
    requires IsDiscount(d) && relevant != {} && Found(Top(retrieved, k), relevant) <= |relevant|
    ensures var r := Ndcg(retrieved, relevant, k, d).value;
            && 0.0 <= r <= 1.0
            && (r == 1.0 <==> k > 0 && StartsRelevant(Top(retrieved, k), relevant, Min(|relevant|, k)))
  {
    var top, m := Top(retrieved, k), Min(|relevant|, k);
    var c := Found(top, relevant);
    GainAtMostIdeal(top, relevant, d);
    IdealGrows(c, m, d);
    IdealGrows(0, m, d);
    StartsRelevantIff(top, relevant, m);
    var gain, ideal := Gain(top, relevant, d), Ideal(m, d);
    assert gain <= ideal && (gain == ideal <==> c == m && Packed(top, relevant));
    if k > 0 {
      DivOrder(0.0, gain, ideal);
      DivOrder(gain, ideal, ideal);
    }
  }

  /** Where no relevant item is repeated, that holds. */
  lemma NoRepeatsIsFew(items: seq<string>, relevant: set<string>)
    requires NoRepeats(items, relevant)
    ensures Found(items, relevant) <= |relevant|
  {
    FoundCounts(items, relevant);
  }

  // ------------------------------------------------------- when it exceeds 1

  lemma {:induction false} GainOfStart(items: seq<string>, relevant: set<string>, d: Discount, m: nat)
    requires IsDiscount(d) && StartsRelevant(items, relevant, m)
    ensures Gain(items, relevant, d) >= Ideal(m, d)
  {
    if items != [] {
      assert d(|items|) > d(|items| + 1) > 0.0;
      if m == |items| {
        GainOfStart(items[..|items| - 1], relevant, d, m - 1);
      } else {
        GainOfStart(items[..|items| - 1], relevant, d, m);
      }
    }
  }

  /** Starting with more relevant positions than there are relevant items scores above 1, whatever the discount. */
  lemma RepeatedNdcg(retrieved: seq<string>, relevant: set<string>, k: nat, d: Discount)
    requires IsDiscount(d) && relevant != {} && StartsRelevant(Top(retrieved, k), relevant, |relevant| + 1)
    ensures Ndcg(retrieved, relevant, k, d).value > 1.0
  {
    var n := |relevant|;
    GainOfStart(Top(retrieved, k), relevant, d, n + 1);
    IdealGrows(n, n + 1, d);
    IdealGrows(0, n, d);
    Above(Gain(Top(retrieved, k), relevant, d), Ideal(n, d));
  }

  lemma Above(a: real, b: real)
    requires a > b > 0.0
    ensures a / b > 1.0
  {
    assert a == (a / b) * b;
  }

  function Halved(i: nat): real {
    if i == 0 then 1.0 else Halved(i - 1) / 2.0
  }

  lemma {:induction false} HalvedFalls(i: nat, j: nat)
    requires i < j
    ensures Halved(i) > Halved(j) > 0.0
  {
    if i + 1 < j {
      HalvedFalls(i, j - 1);
    } else if i > 0 {
      HalvedFalls(i - 1, j - 1);
    }
  }

  /** A discount that is nearly flat. */
  function Flat(): Discount {
    (i: nat) => 1.0 + Halved(i)
  }

  lemma FlatIsDiscount()
    ensures IsDiscount(Flat())
  {
    forall i: nat, j: nat | 0 < i < j
      ensures Flat()(i) > Flat()(j) > 0.0
    {
      HalvedFalls(i, j);
    }
  }

  lemma {:induction false} IdealOfFlat(n: nat)
    ensures Ideal(n, Flat()) == n as real + 1.0 - Halved(n)
  {
    if n > 0 {
      IdealOfFlat(n - 1);
      assert Flat()(n) == 1.0 + Halved(n);
    }
  }

  lemma {:induction false} GainOfFlat(items: seq<string>, relevant: set<string>)
    ensures Gain(items, relevant, Flat()) >= Found(items, relevant) as real
  {
    if items != [] {
      GainOfFlat(items[..|items| - 1], relevant);
      HalvedFalls(|items|, |items| + 1);
      assert Flat()(|items|) == 1.0 + Halved(|items|);
    }
  }

  lemma FlatExceeds(retrieved: seq<string>, relevant: set<string>, k: nat)
    requires relevant != {} && Found(Top(retrieved, k), relevant) > |relevant|
    ensures Ndcg(retrieved, relevant, k, Flat()).value > 1.0
  {
    var top, n := Top(retrieved, k), |relevant|;
    FoundCounts(top, relevant);
    FlatIsDiscount();
    GainOfFlat(top, relevant);
    IdealOfFlat(n);
    HalvedFalls(n, n + 1);
    IdealGrows(0, n, Flat());
    Above(Gain(top, relevant, Flat()), Ideal(n, Flat()));
  }

  /** No discount takes the metric above 1. */
  ghost predicate NeverAboveOne(retrieved: seq<string>, relevant: set<string>, k: nat)
    requires relevant != {}
  {
    forall d: Discount :: IsDiscount(d) ==> Ndcg(retrieved, relevant, k, d).value <= 1.0
  }

  /** The metric is normalised for every discount if and only if no more positions than relevant items are relevant. */
  lemma NdcgNeedsFew(retrieved: seq<string>, relevant: set<string>, k: nat)
    requires relevant != {}
    ensures NeverAboveOne(retrieved, relevant, k) <==> Found(Top(retrieved, k), relevant) <= |relevant|
    ensures NoRepeats(Top(retrieved, k), relevant) ==> NeverAboveOne(retrieved, relevant, k)
  {
    if NoRepeats(Top(retrieved, k), relevant) {
      NoRepeatsIsFew(Top(retrieved, k), relevant);
    }
    if Found(Top(retrieved, k), relevant) <= |relevant| {
      forall d: Discount | IsDiscount(d)
        ensures Ndcg(retrieved, relevant, k, d).value <= 1.0
      {
        NdcgIsNormalised(retrieved, relevant, k, d);
      }
    } else {
      FlatIsDiscount();
      FlatExceeds(retrieved, relevant, k);
    }
  }

  // ------------------------------------------------------- as sums over ranks

  /** What the item at rank `i + 1` is worth: nothing if there is none or it is not relevant. */
  function Worth(retrieved: seq<string>, relevant: set<string>, worth: Discount): nat -> real {
    (i: nat) => if i < |retrieved| && retrieved[i] in relevant then worth(i + 1) else 0.0
  }

  /** The discounts of the first ranks. */
  function FirstRanks(d: Discount): nat -> real {
    (i: nat) => d(i + 1)
  }

  /** Every rank counts one. */
  function One(): Discount {
    _ => 1.0
  }

  lemma {:induction false} GainIsTotal(items: seq<string>, relevant: set<string>, d: Discount)
    ensures Gain(items, relevant, d) == Total(Worth(items, relevant, d), |items|)
  {
    if items != [] {
      var init := items[..|items| - 1];
      GainIsTotal(init, relevant, d);
      SameTotal(Worth(init, relevant, d), Worth(items, relevant, d), |init|);
    }
  }

  lemma {:induction false} FoundIsTotal(items: seq<string>, relevant: set<string>)
    ensures Found(items, relevant) as real == Total(Worth(items, relevant, One()), |items|)
  {
    if items != [] {
      var init := items[..|items| - 1];
      FoundIsTotal(init, relevant);
      SameTotal(Worth(init, relevant, One()), Worth(items, relevant, One()), |init|);
    }
  }

  lemma TopTotal(retrieved: seq<string>, relevant: set<string>, worth: Discount, k: nat)
    ensures var top := Top(retrieved, k);
            Total(Worth(top, relevant, worth), |top|) == Total(Worth(retrieved, relevant, worth), k)
  {
    var top := Top(retrieved, k);
    var w := Worth(retrieved, relevant, worth);
    SameTotal(Worth(top, relevant, worth), w, |top|);
    NothingBeyond(w, |top|, k);
  }

  lemma {:induction false} IdealIsTotal(n: nat, d: Discount)
    ensures Ideal(n, d) == Total(FirstRanks(d), n)
  {
    if n > 0 {
      IdealIsTotal(n - 1, d);
    }
  }

  /** Recall is the relevant ranks among the first `k`, over the relevant items. */
  lemma RecallCountsRanks(retrieved: seq<string>, relevant: set<string>, k: nat)
    requires relevant != {}
    ensures Recall(retrieved, relevant, k) == Ok(Total(Worth(retrieved, relevant, One()), k) / |relevant| as real)
  {
    FoundIsTotal(Top(retrieved, k), relevant);
    TopTotal(retrieved, relevant, One(), k);
  }

  /**
   The metric is the discounts of the relevant ranks among the first `k`, over those of as
   many first ranks as there are relevant items, `k` at most.
   */
  lemma NdcgIsRatio(retrieved: seq<string>, relevant: set<string>, k: nat, d: Discount)
    requires IsDiscount(d) && relevant != {} && k > 0
    ensures var m := if |relevant| < k then |relevant| else k;
            && Total(FirstRanks(d), m) > 0.0
            && Ndcg(retrieved, relevant, k, d) == Ok(Total(Worth(retrieved, relevant, d), k) / Total(FirstRanks(d), m))
  {
    var m := Min(|relevant|, k);
    IdealGrows(0, m, d);
    IdealIsTotal(m, d);
    GainIsTotal(Top(retrieved, k), relevant, d);
    TopTotal(retrieved, relevant, d, k);
  }
}
