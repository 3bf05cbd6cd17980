/** Provider selection: blended prices, the sort, and the draw by inverse price. */
module Router {
  import opened Common
  import opened Pricing

  type Pricer = (string, string) -> Option<ModelPricing>

  // ---- Price and weight ----

  const UNKNOWN_PRICE := 1000000000.0
  const FREE_WEIGHT := 1000000.0

  /** `blendedPrice`: input plus output price; an endpoint without a price gets the sentinel. */
  function BlendedPrice(pricer: Pricer, ep: Endpoint): real
  {
    var p := pricer(ep.provider, ep.model);
    if p.None? then UNKNOWN_PRICE else p.value.input + p.value.output
  }

  /** `weightForPrice`. */
  function WeightForPrice(price: real): (w: real)
    ensures w > 0.0
  {
    if price <= 0.0 then FREE_WEIGHT else 1.0 / price
  }

  /** Weights are inverse to prices: half the price, twice the weight; a free endpoint weighs as
      much as one priced at a millionth. */
  lemma {:induction false} WeightsAreInverse(p: real, q: real)
    requires p > 0.0
    ensures WeightForPrice(p) * p == 1.0
    ensures q > 0.0 ==> WeightForPrice(p) * p == WeightForPrice(q) * q
    ensures q <= 0.0 ==> WeightForPrice(q) == WeightForPrice(0.000001)
  {
  }

  function Weight(pricer: Pricer, ep: Endpoint): (w: real)
    ensures w > 0.0
  {
    WeightForPrice(BlendedPrice(pricer, ep))
  }

  /** What an endpoint weighs: a billionth without a price, a million at no charge, else the
      reciprocal of its input and output prices together. */
  lemma {:induction false} WeightMeans(pricer: Pricer, ep: Endpoint)
    ensures match pricer(ep.provider, ep.model)
            case None => Weight(pricer, ep) * 1000000000.0 == 1.0
            case Some(p) =>
              if p.input + p.output <= 0.0 then Weight(pricer, ep) == 1000000.0
              else Weight(pricer, ep) * (p.input + p.output) == 1.0
  {
  }

  // ---- Sorting ----

  /** The comparison given to `sort.Slice`: cheaper first, then by provider name. */
  predicate Less(pricer: Pricer, a: Endpoint, b: Endpoint)
  {
    var pa, pb := BlendedPrice(pricer, a), BlendedPrice(pricer, b);
    if pa != pb then pa < pb else Before(a.provider, b.provider)
  }

  lemma {:induction false} LessOrder(pricer: Pricer, a: Endpoint, b: Endpoint, c: Endpoint)
    ensures !Less(pricer, a, a) && !(Less(pricer, a, b) && Less(pricer, b, a))
    ensures Less(pricer, a, b) && Less(pricer, b, c) ==> Less(pricer, a, c)
    ensures !Less(pricer, b, a) && !Less(pricer, c, b) ==> !Less(pricer, c, a)
  {
    BeforeTotal(a.provider, a.provider);
    BeforeTotal(a.provider, b.provider);
    BeforeTotal(b.provider, c.provider);
    BeforeTotal(a.provider, c.provider);
    if Before(a.provider, b.provider) && Before(b.provider, c.provider) {
      BeforeTransitive(a.provider, b.provider, c.provider);
    }
  }

  ghost predicate Sorted(pricer: Pricer, s: seq<Endpoint>)
  {
    forall i, j | 0 <= i < j < |s| :: !Less(pricer, s[j], s[i])
  }

  /** Of two endpoints of a sorted pool the earlier is the cheaper; at one price it is the one whose
      provider comes first in the alphabet, or both have the same. */
  lemma {:induction false} SortedMeans(pricer: Pricer, s: seq<Endpoint>, i: nat, j: nat)
    requires Sorted(pricer, s) && i < j < |s|
    ensures var pi, pj := BlendedPrice(pricer, s[i]), BlendedPrice(pricer, s[j]);
            pi < pj || (pi == pj && (Before(s[i].provider, s[j].provider) || s[i].provider == s[j].provider))
  {
    assert !Less(pricer, s[j], s[i]);
    BeforeTotal(s[i].provider, s[j].provider);
  }

  /** What `sort.Slice` promises, no more: some sorted arrangement of the same endpoints. */
  ghost predicate IsSortOf(pricer: Pricer, s: seq<Endpoint>, candidates: seq<Endpoint>)
  {
    Sorted(pricer, s) && multiset(s) == multiset(candidates)
  }

  function Insert(pricer: Pricer, s: seq<Endpoint>, x: Endpoint): seq<Endpoint>
  {
    if s == [] || Less(pricer, x, s[0]) then [x] + s else [s[0]] + Insert(pricer, s[1..], x)
  }

  function InsertionSort(pricer: Pricer, s: seq<Endpoint>): seq<Endpoint>
  {
    if s == [] then [] else Insert(pricer, InsertionSort(pricer, s[1..]), s[0])
  }

  lemma {:induction false} InsertSorts(pricer: Pricer, s: seq<Endpoint>, x: Endpoint)
    requires Sorted(pricer, s)
    ensures Sorted(pricer, Insert(pricer, s, x))
    ensures multiset(Insert(pricer, s, x)) == multiset(s) + multiset{x}
  {
    hide Less;
    if s == [] {
    } else if Less(pricer, x, s[0]) {
      forall i | 0 <= i < |s| ensures !Less(pricer, s[i], x) {
        LessOrder(pricer, x, s[0], s[0]);
        if i > 0 { LessOrder(pricer, x, s[0], s[i]); }
      }
    } else {
      var rest := Insert(pricer, s[1..], x);
      InsertSorts(pricer, s[1..], x);
      assert s == [s[0]] + s[1..];
      forall i | 0 <= i < |rest| ensures !Less(pricer, rest[i], s[0]) {
        assert rest[i] in multiset(rest);
        if rest[i] != x {
          assert rest[i] in multiset(s[1..]);
          assert rest[i] in s[1..];
        }
      }
    }
  }

  lemma {:induction false} InsertionSortSorts(pricer: Pricer, s: seq<Endpoint>)
    ensures IsSortOf(pricer, InsertionSort(pricer, s), s)
  {
    hide Less;
    if s != [] {
      InsertionSortSorts(pricer, s[1..]);
      InsertSorts(pricer, InsertionSort(pricer, s[1..]), s[0]);
      assert s == [s[0]] + s[1..];
    }
  }

  /** A stand-in for the library's in-place `sort.Slice`; only its contract is used. */
  method SortSlice(a: array<Endpoint>, pricer: Pricer)
    modifies a
    ensures IsSortOf(pricer, a[..], old(a[..]))
  {
    hide InsertionSort, Sorted;
    var s := InsertionSort(pricer, a[..]);
    InsertionSortSorts(pricer, a[..]);
    assert |multiset(s)| == |multiset(a[..])|;
    for i := 0 to a.Length
      invariant a[..i] == s[..i]
    {
      a[i] := s[i];
    }
    assert a[..] == s;
  }

  // ---- The weighted draw ----

  /** Total weight of the first n endpoints. */
  function PrefixWeight(pricer: Pricer, s: seq<Endpoint>, n: nat): (w: real)
    requires n <= |s|
    ensures w >= 0.0 && (n > 0 ==> w > 0.0)
  {
    if n == 0 then 0.0 else PrefixWeight(pricer, s, n - 1) + Weight(pricer, s[n - 1])
  }

  function TotalWeight(pricer: Pricer, s: seq<Endpoint>): real
  {
    PrefixWeight(pricer, s, |s|)
  }

  /** The point t lies in the i-th endpoint's half-open share of the total weight. */
  ghost predicate InShare(pricer: Pricer, s: seq<Endpoint>, t: real, i: int)
  {
    0 <= i < |s| && PrefixWeight(pricer, s, i) <= t < PrefixWeight(pricer, s, i + 1)
  }

  /** The draw r, scaled by the total weight, lands in the i-th endpoint's share. */
  ghost predicate Drawn(pricer: Pricer, s: seq<Endpoint>, r: real, i: int)
  {
    InShare(pricer, s, Target(pricer, s, r), i)
  }

  function Target(pricer: Pricer, s: seq<Endpoint>, r: real): real
  {
    r * TotalWeight(pricer, s)
  }

  /** `selectByCost`: sorts a copy, weighs it, and walks the cumulative weights. Over exact reals
      the zero-total and fall-through returns are never reached. */
  method SelectByCost(candidates: seq<Endpoint>, pricer: Pricer, r: real)
    returns (chosen: Endpoint, ghost sorted: seq<Endpoint>, ghost index: int)
    requires candidates != [] && 0.0 <= r < 1.0
    ensures IsSortOf(pricer, sorted, candidates)
    ensures Drawn(pricer, sorted, r, index) && chosen == sorted[index]
    ensures chosen in candidates
  {
    hide IsSortOf, PrefixWeight, Target;
    var a := new Endpoint[|candidates|](i requires 0 <= i < |candidates| => candidates[i]);
    assert a[..] == candidates;
    SortSlice(a, pricer);
    var cheapestFirst := a[..];
    sorted := cheapestFirst;
    var weights, total := Weigh(cheapestFirst, pricer);
    TargetInRange(pricer, cheapestFirst, r);
    if total <= 0.0 {
      assert false;
    }
    TargetIs(pricer, cheapestFirst, r);
    var target := r * total;
    var i := WalkWeights(cheapestFirst, pricer, weights, target);
    index := i;
    chosen := cheapestFirst[i];
    assert chosen in candidates by { SortedAmong(pricer, cheapestFirst, candidates, i); }
  }

  lemma {:induction false} SortedAmong(pricer: Pricer, sorted: seq<Endpoint>, pool: seq<Endpoint>, i: nat)
    requires IsSortOf(pricer, sorted, pool) && i < |sorted|
    ensures sorted[i] in pool
  {
    assert sorted[i] in multiset(sorted);
  }

  lemma {:induction false} TargetIs(pricer: Pricer, s: seq<Endpoint>, r: real)
    ensures Target(pricer, s, r) == r * TotalWeight(pricer, s)
  {
  }

  /** Weights are positive, so the scaled draw lies below their total. */
  lemma {:induction false} TargetInRange(pricer: Pricer, s: seq<Endpoint>, r: real)
    requires s != [] && 0.0 <= r < 1.0
    ensures 0.0 < TotalWeight(pricer, s)
    ensures 0.0 <= Target(pricer, s, r) < TotalWeight(pricer, s)
  {
    hide PrefixWeight, Target;
    TargetIs(pricer, s, r);
    DrawBelowTotal(r, TotalWeight(pricer, s));
  }

  /** The weighing loop. */
  method Weigh(sorted: seq<Endpoint>, pricer: Pricer) returns (weights: seq<real>, total: real)
    ensures |weights| == |sorted| && forall k | 0 <= k < |sorted| :: weights[k] == Weight(pricer, sorted[k])
    ensures total == TotalWeight(pricer, sorted)
  {
    hide BlendedPrice, WeightForPrice;
    weights, total := [], 0.0;
    for i := 0 to |sorted|
      invariant |weights| == i && total == PrefixWeight(pricer, sorted, i)
      invariant forall k | 0 <= k < i :: weights[k] == Weight(pricer, sorted[k])
    {
      var w := WeightForPrice(BlendedPrice(pricer, sorted[i]));
      weights := weights + [w];
      total := total + w;
    }
  }

  /** The cumulative walk to the target. */
  method WalkWeights(sorted: seq<Endpoint>, pricer: Pricer, weights: seq<real>, target: real) returns (i: nat)
    requires |weights| == |sorted| && forall k | 0 <= k < |sorted| :: weights[k] == Weight(pricer, sorted[k])
    requires 0.0 <= target < TotalWeight(pricer, sorted)
    ensures InShare(pricer, sorted, target, i)
  {
    hide Weight;
    var acc := 0.0;
    i := 0;
    while i < |sorted|
      invariant i <= |sorted|
      invariant acc == PrefixWeight(pricer, sorted, i) && acc <= target
    {
      acc := acc + weights[i];
      if target < acc {
        return;
      }
      i := i + 1;
    }
    assert false;
  }

  lemma {:induction false} DrawBelowTotal(r: real, total: real)
    requires 0.0 <= r < 1.0 && total > 0.0
    ensures 0.0 <= r * total < total
  {
  }

  lemma {:induction false} PrefixWeightIncreases(pricer: Pricer, s: seq<Endpoint>, m: nat, n: nat)
    requires m <= n <= |s|
    ensures PrefixWeight(pricer, s, m) <= PrefixWeight(pricer, s, n)
    ensures m < n ==> PrefixWeight(pricer, s, m) < PrefixWeight(pricer, s, n)
    decreases n
  {
    if m < n { PrefixWeightIncreases(pricer, s, m, n - 1); }
  }

  lemma {:induction false} DrawnExists(pricer: Pricer, s: seq<Endpoint>, t: real, n: nat) returns (i: nat)
    requires n <= |s| && 0.0 <= t < PrefixWeight(pricer, s, n)
    ensures InShare(pricer, s, t, i)
  {
    if PrefixWeight(pricer, s, n - 1) <= t {
      i := n - 1;
    } else {
      i := DrawnExists(pricer, s, t, n - 1);
    }
  }

  lemma {:induction false} OneShare(pricer: Pricer, s: seq<Endpoint>, t: real, i: int, j: int)
    requires InShare(pricer, s, t, i) && InShare(pricer, s, t, j)
    ensures i == j
  {
    if i < j { PrefixWeightIncreases(pricer, s, i + 1, j); }
    if j < i { PrefixWeightIncreases(pricer, s, j + 1, i); }
  }

  /** The shares tile the whole range: every draw lands in exactly one of them. */
  lemma {:induction false} SharesTile(pricer: Pricer, s: seq<Endpoint>, r: real)
    requires s != [] && 0.0 <= r < 1.0
    ensures exists i :: Drawn(pricer, s, r, i)
    ensures forall i, j | Drawn(pricer, s, r, i) && Drawn(pricer, s, r, j) :: i == j
  {
    hide InShare, PrefixWeight, Target;
    TargetInRange(pricer, s, r);
    var t := Target(pricer, s, r);
    var k := DrawnExists(pricer, s, t, |s|);
    assert Drawn(pricer, s, r, k);
    forall i, j | Drawn(pricer, s, r, i) && Drawn(pricer, s, r, j)
      ensures i == j
    {
      OneShare(pricer, s, t, i, j);
    }
  }

  // ---- When the draw picks a cheapest endpoint ----

  ghost predicate Cheapest(pricer: Pricer, ep: Endpoint, pool: seq<Endpoint>)
  {
    forall e | e in pool :: BlendedPrice(pricer, ep) <= BlendedPrice(pricer, e)
  }

  ghost predicate SamePrice(pricer: Pricer, pool: seq<Endpoint>)
  {
    forall a, b | a in pool && b in pool :: BlendedPrice(pricer, a) == BlendedPrice(pricer, b)
  }

  /** How many endpoints at the head of a sorted pool share its lowest price. */
  function CheapestCount(pricer: Pricer, s: seq<Endpoint>): (n: nat)
    requires s != []
    ensures 1 <= n <= |s|
  {
    var last := |s| - 1;
    if last == 0 || BlendedPrice(pricer, s[last]) == BlendedPrice(pricer, s[0]) then |s|
    else CheapestCount(pricer, s[..last])
  }

  lemma {:induction false} SortedByPrice(pricer: Pricer, s: seq<Endpoint>, i: nat, j: nat)
    requires Sorted(pricer, s) && i <= j < |s|
    ensures BlendedPrice(pricer, s[i]) <= BlendedPrice(pricer, s[j])
  {
    if i < j { assert !Less(pricer, s[j], s[i]); }
  }

  lemma {:induction false} CheapestAreFirst(pricer: Pricer, s: seq<Endpoint>, i: nat)
    requires Sorted(pricer, s) && i < |s|
    ensures i < CheapestCount(pricer, s) <==> BlendedPrice(pricer, s[i]) == BlendedPrice(pricer, s[0])
    ensures Cheapest(pricer, s[i], s) <==> BlendedPrice(pricer, s[i]) == BlendedPrice(pricer, s[0])
  {
    var last := |s| - 1;
    SortedByPrice(pricer, s, 0, i);
    SortedByPrice(pricer, s, i, last);
    if last > 0 && i < last && BlendedPrice(pricer, s[last]) != BlendedPrice(pricer, s[0]) {
      CheapestAreFirst(pricer, s[..last], i);
    }
    forall e | e in s ensures BlendedPrice(pricer, s[0]) <= BlendedPrice(pricer, e) {
      var k :| 0 <= k < |s| && s[k] == e;
      SortedByPrice(pricer, s, 0, k);
    }
    assert s[0] in s;
  }

  /** The drawn endpoint is a cheapest one exactly when the scaled draw falls below the joint weight
      of all endpoints at the lowest price. */
  lemma {:induction false} DrawnCheapestIff(pricer: Pricer, s: seq<Endpoint>, r: real, i: int)
    requires Sorted(pricer, s) && Drawn(pricer, s, r, i)
    ensures Cheapest(pricer, s[i], s)
            <==> Target(pricer, s, r) < PrefixWeight(pricer, s, CheapestCount(pricer, s))
  {
    hide Target, Weight, Cheapest, CheapestCount, Sorted;
    var n := CheapestCount(pricer, s);
    CheapestAreFirst(pricer, s, i);
    if i < n {
      PrefixWeightIncreases(pricer, s, i + 1, n);
    } else {
      PrefixWeightIncreases(pricer, s, n, i);
    }
  }

  /** Every endpoint has a draw that picks it. */
  lemma {:induction false} DrawOf(pricer: Pricer, s: seq<Endpoint>, i: nat) returns (r: real)
    requires i < |s|
    ensures 0.0 <= r < 1.0 && Drawn(pricer, s, r, i)
  {
    hide PrefixWeight, Target, Weight, TotalWeight;
    PrefixWeightIncreases(pricer, s, i, |s|);
    PrefixWeightIncreases(pricer, s, i, i + 1);
    TotalIs(pricer, s);
    var low, total := PrefixWeight(pricer, s, i), TotalWeight(pricer, s);
    r := Quotient(low, total);
    TargetIs(pricer, s, r);
    assert Target(pricer, s, r) == low;
  }

  ghost function Scaled(x: real, factor: real): real
  {
    x * factor
  }

  /** The draws that pick an endpoint form an interval, half-open, whose length is the endpoint's part
      of the total weight. */
  lemma {:induction false} ShareIsProportional(pricer: Pricer, s: seq<Endpoint>, i: nat)
    returns (low: real, high: real)
    requires i < |s|
    ensures 0.0 <= low < high <= 1.0
    ensures forall r :: Drawn(pricer, s, r, i) <==> low <= r < high
    ensures Scaled(high - low, TotalWeight(pricer, s)) == Weight(pricer, s[i])
  {
    hide PrefixWeight, Target, Weight, TotalWeight, Scaled;
    PrefixWeightIncreases(pricer, s, i, i + 1);
    PrefixWeightIncreases(pricer, s, i + 1, |s|);
    PrefixWeightNext(pricer, s, i);
    TotalIs(pricer, s);
    var total := TotalWeight(pricer, s);
    low := Part(PrefixWeight(pricer, s, i), total);
    high := Part(PrefixWeight(pricer, s, i + 1), total);
    ScaledOrder(high, low, total);
    forall r ensures Drawn(pricer, s, r, i) <==> low <= r < high { DrawnWithin(pricer, s, i, low, high, r); }
    ScaledDifference(high, low, total);
  }

  lemma {:induction false} DrawnWithin(pricer: Pricer, s: seq<Endpoint>, i: nat, low: real, high: real, r: real)
    requires i < |s| && TotalWeight(pricer, s) > 0.0
    requires Scaled(low, TotalWeight(pricer, s)) == PrefixWeight(pricer, s, i)
    requires Scaled(high, TotalWeight(pricer, s)) == PrefixWeight(pricer, s, i + 1)
    ensures Drawn(pricer, s, r, i) <==> low <= r < high
  {
    TargetScaled(pricer, s, r);
    hide PrefixWeight, Target, Weight, TotalWeight, Scaled;
    ScaledOrder(low, r, TotalWeight(pricer, s));
    ScaledOrder(high, r, TotalWeight(pricer, s));
  }

  lemma {:induction false} TargetScaled(pricer: Pricer, s: seq<Endpoint>, r: real)
    ensures Target(pricer, s, r) == Scaled(r, TotalWeight(pricer, s))
  {
  }

  lemma {:induction false} PrefixWeightNext(pricer: Pricer, s: seq<Endpoint>, i: nat)
    requires i < |s|
    ensures PrefixWeight(pricer, s, i + 1) == PrefixWeight(pricer, s, i) + Weight(pricer, s[i])
    ensures PrefixWeight(pricer, s, i) >= 0.0
  {
  }

  lemma {:induction false} Part(a: real, total: real) returns (r: real)
    requires 0.0 <= a <= total && total > 0.0
    ensures 0.0 <= r <= 1.0 && Scaled(r, total) == a
  {
    r := a / total;
  }

  lemma {:induction false} ScaledOrder(x: real, y: real, factor: real)
    requires factor > 0.0
    ensures x <= y <==> Scaled(x, factor) <= Scaled(y, factor)
  {
  }

  lemma {:induction false} ScaledDifference(x: real, y: real, factor: real)
    ensures Scaled(x - y, factor) == Scaled(x, factor) - Scaled(y, factor)
  {
  }

  lemma {:induction false} TotalIs(pricer: Pricer, s: seq<Endpoint>)
    ensures TotalWeight(pricer, s) == PrefixWeight(pricer, s, |s|)
  {
  }

  lemma {:induction false} Quotient(a: real, b: real) returns (r: real)
    requires 0.0 <= a < b
    ensures 0.0 <= r < 1.0 && r * b == a
  {
    r := a / b;
  }

  /** Every draw picks a cheapest endpoint exactly when all endpoints of the pool cost the same. */
  lemma {:induction false} EveryDrawCheapestIff(pricer: Pricer, s: seq<Endpoint>)
    requires Sorted(pricer, s) && s != []
    ensures (forall r, i | 0.0 <= r < 1.0 && Drawn(pricer, s, r, i) :: Cheapest(pricer, s[i], s))
            <==> SamePrice(pricer, s)
  {
    hide Drawn, Sorted;
    var last := |s| - 1;
    if !SamePrice(pricer, s) {
      var r := DrawOf(pricer, s, last);
      DearestDiffers(pricer, s);
    }
    forall r, i | Drawn(pricer, s, r, i) ensures 0 <= i < |s| { NonEmptyDrawn(pricer, s, r, i); }
  }

  lemma {:induction false} DearestDiffers(pricer: Pricer, s: seq<Endpoint>)
    requires Sorted(pricer, s) && s != []
    ensures Cheapest(pricer, s[|s| - 1], s) <==> SamePrice(pricer, s)
  {
    var last := |s| - 1;
    forall e | e in s ensures BlendedPrice(pricer, e) <= BlendedPrice(pricer, s[last]) {
      var k :| 0 <= k < |s| && s[k] == e;
      SortedByPrice(pricer, s, k, last);
    }
    assert s[last] in s;
  }

  // ---- The pick does not depend on the order of the pool ----

  predicate SameKey(pricer: Pricer, a: Endpoint, b: Endpoint)
  {
    BlendedPrice(pricer, a) == BlendedPrice(pricer, b) && a.provider == b.provider
  }

  /** No two candidates share both price and provider. */
  ghost predicate DistinctKeys(pricer: Pricer, candidates: seq<Endpoint>)
  {
    forall i, j | 0 <= i < j < |candidates| :: !SameKey(pricer, candidates[i], candidates[j])
  }

  lemma {:induction false} TwiceInMultiset<T>(s: seq<T>, i: nat, j: nat)
    requires i < j < |s| && s[i] == s[j]
    ensures multiset(s)[s[i]] >= 2
  {
    assert s == s[..j] + s[j..];
    assert s[i] in s[..j] && s[j] in s[j..];
  }

  lemma {:induction false} OnceInMultiset<T>(s: seq<T>, x: T)
    requires multiset(s)[x] >= 2
    ensures exists i, j :: 0 <= i < j < |s| && s[i] == x && s[j] == x
  {
    var rest := s[1..];
    assert s == [s[0]] + rest;
    if s[0] == x {
      assert x in multiset(rest);
      var j :| 0 <= j < |rest| && rest[j] == x;
      assert s[j + 1] == x;
    } else {
      OnceInMultiset(rest, x);
      var i, j :| 0 <= i < j < |rest| && rest[i] == x && rest[j] == x;
      assert s[i + 1] == x && s[j + 1] == x;
    }
  }

  lemma {:induction false} DistinctKeysOfSort(pricer: Pricer, s: seq<Endpoint>, candidates: seq<Endpoint>)
    requires DistinctKeys(pricer, candidates) && multiset(s) == multiset(candidates)
    ensures DistinctKeys(pricer, s)
  {
    hide SameKey;
    forall i, j | 0 <= i < j < |s| ensures !SameKey(pricer, s[i], s[j]) {
      if s[i] == s[j] {
        TwiceInMultiset(s, i, j);
        OnceInMultiset(candidates, s[i]);
        var k, l :| 0 <= k < l < |candidates| && candidates[k] == s[i] && candidates[l] == s[i];
        assert !SameKey(pricer, candidates[k], candidates[l]);
      } else {
        assert s[i] in multiset(s) && s[j] in multiset(s);
        assert s[i] in candidates && s[j] in candidates;
        var k :| 0 <= k < |candidates| && candidates[k] == s[i];
        var l :| 0 <= l < |candidates| && candidates[l] == s[j];
        assert !SameKey(pricer, candidates[if k < l then k else l], candidates[if k < l then l else k]);
        SameKeySymmetric(pricer, s[i], s[j]);
      }
    }
  }

  lemma {:induction false} SameKeySymmetric(pricer: Pricer, a: Endpoint, b: Endpoint)
    ensures SameKey(pricer, a, b) == SameKey(pricer, b, a)
  {
  }

  lemma {:induction false} HeadsAgree(pricer: Pricer, s: seq<Endpoint>, t: seq<Endpoint>)
    requires Sorted(pricer, s) && Sorted(pricer, t) && multiset(s) == multiset(t)
    requires DistinctKeys(pricer, s) && s != [] && t != []
    ensures s[0] == t[0]
  {
    hide BlendedPrice, Before;
    assert t[0] in multiset(s) && s[0] in multiset(t);
    assert t[0] in s && s[0] in t;
    var i :| 0 <= i < |s| && s[i] == t[0];
    var j :| 0 <= j < |t| && t[j] == s[0];
    BeforeTotal(s[0].provider, t[0].provider);
    BeforeTotal(s[0].provider, s[0].provider);
    assert !Less(pricer, s[i], s[0]) && !Less(pricer, t[j], t[0]);
    assert SameKey(pricer, s[0], s[i]);
  }

  lemma {:induction false} SortedUnique(pricer: Pricer, s: seq<Endpoint>, t: seq<Endpoint>)
    requires Sorted(pricer, s) && Sorted(pricer, t) && multiset(s) == multiset(t)
    requires DistinctKeys(pricer, s)
    ensures s == t
  {
    hide Less, SameKey;
    assert |multiset(s)| == |s| && |multiset(t)| == |t|;
    if s != [] {
      HeadsAgree(pricer, s, t);
      assert s == [s[0]] + s[1..] && t == [t[0]] + t[1..];
      assert multiset(s[1..]) == multiset(s) - multiset{s[0]};
      assert multiset(t[1..]) == multiset(t) - multiset{t[0]};
      SortedUnique(pricer, s[1..], t[1..]);
    }
  }

  /** If no two candidates share price and provider, the same draw picks the same endpoint from
      every arrangement of the pool, whichever sorted order the library produces. */
  lemma {:induction false} PickIgnoresPoolOrder(pricer: Pricer, pool1: seq<Endpoint>, pool2: seq<Endpoint>,
                                                s1: seq<Endpoint>, s2: seq<Endpoint>, r: real, i: int, j: int)
    requires DistinctKeys(pricer, pool1) && multiset(pool1) == multiset(pool2)
    requires IsSortOf(pricer, s1, pool1) && IsSortOf(pricer, s2, pool2)
    requires 0.0 <= r < 1.0 && Drawn(pricer, s1, r, i) && Drawn(pricer, s2, r, j)
    ensures s1[i] == s2[j]
  {
    hide Drawn, Sorted, DistinctKeys;
    DistinctKeysOfSort(pricer, s1, pool1);
    SortedUnique(pricer, s1, s2);
    assert |s1| > 0 by { NonEmptyDrawn(pricer, s1, r, i); }
    SharesTile(pricer, s1, r);
  }

  lemma {:induction false} NonEmptyDrawn(pricer: Pricer, s: seq<Endpoint>, r: real, i: int)
    requires Drawn(pricer, s, r, i)
    ensures 0 <= i < |s|
  {
  }

  // ---- Cheaper endpoints do not get smaller shares, except below a millionth ----

  ghost predicate SharesFollowPrice(pricer: Pricer, s: seq<Endpoint>)
  {
    forall i, j | 0 <= i < j < |s| :: Weight(pricer, s[j]) <= Weight(pricer, s[i])
  }

  /** A free endpoint competes with one priced above zero but below a millionth. */
  ghost predicate FreeMeetsTiny(pricer: Pricer, candidates: seq<Endpoint>)
  {
    exists a, b :: a in candidates && b in candidates
                   && BlendedPrice(pricer, a) <= 0.0 && 0.0 < BlendedPrice(pricer, b) < 1.0 / FREE_WEIGHT
  }

  lemma {:induction false} WeightAgainstPrice(p: real, q: real)
    requires p <= q
    ensures WeightForPrice(q) <= WeightForPrice(p) <==> !(p <= 0.0 && 0.0 < q < 1.0 / FREE_WEIGHT)
  {
    if p > 0.0 {
      ReciprocalDecreases(p, q);
    } else if q > 0.0 {
      if q < 1.0 / FREE_WEIGHT {
        ReciprocalDecreases(q, 0.000001);
      } else {
        ReciprocalDecreases(0.000001, q);
      }
    }
  }

  lemma {:induction false} ReciprocalDecreases(p: real, q: real)
    requires 0.0 < p <= q
    ensures 1.0 / q <= 1.0 / p
    ensures p < q ==> 1.0 / q < 1.0 / p
  {
    var x, y := 1.0 / p, 1.0 / q;
    assert x * p == 1.0 && y * q == 1.0 && x > 0.0;
    assert x * p <= x * q;
    assert p < q ==> x * p < x * q;
    CancelFactor(x, y, q);
  }

  lemma {:induction false} CancelFactor(x: real, y: real, q: real)
    requires q > 0.0
    ensures y * q <= x * q ==> y <= x
    ensures y * q < x * q ==> y < x
  {
  }

  /** Along the sorted pool shares never grow, so a cheaper endpoint is never less likely, exactly
      when no free endpoint meets one priced below a millionth. */
  lemma {:induction false} SharesFollowPriceIff(pricer: Pricer, s: seq<Endpoint>)
    requires Sorted(pricer, s)
    ensures SharesFollowPrice(pricer, s) <==> !FreeMeetsTiny(pricer, s)
  {
    forall i, j | 0 <= i < j < |s|
      ensures BlendedPrice(pricer, s[i]) <= BlendedPrice(pricer, s[j])
      ensures Weight(pricer, s[j]) <= Weight(pricer, s[i])
              <==> !(BlendedPrice(pricer, s[i]) <= 0.0 && 0.0 < BlendedPrice(pricer, s[j]) < 1.0 / FREE_WEIGHT)
    {
      assert !Less(pricer, s[j], s[i]);
      WeightAgainstPrice(BlendedPrice(pricer, s[i]), BlendedPrice(pricer, s[j]));
    }
    if FreeMeetsTiny(pricer, s) {
      var a, b :| a in s && b in s && BlendedPrice(pricer, a) <= 0.0
                  && 0.0 < BlendedPrice(pricer, b) < 1.0 / FREE_WEIGHT;
      var i :| 0 <= i < |s| && s[i] == a;
      var j :| 0 <= j < |s| && s[j] == b;
      assert i < j;
    }
  }
}
