/**
 The percentages of a segmented bar (`SegmentedBar` of `charts.tsx`): largest-remainder rounding, in exact arithmetic.
*/
module Shares {
  import opened Common
  import opened Sorting

  function Sum(s: seq<nat>): nat { if s == [] then 0 else Sum(s[..|s| - 1]) + s[|s| - 1] }

  lemma {:induction false} SumUpdate(s: seq<nat>, i: nat, v: nat)
    requires i < |s|
    ensures Sum(s[i := v]) == Sum(s) - s[i] + v
  {
    if i < |s| - 1 {
      SumUpdate(s[..|s| - 1], i, v);
      assert s[i := v][..|s| - 1] == s[..|s| - 1][i := v];
    } else {
      assert s[i := v][..|s| - 1] == s[..|s| - 1];
    }
  }

  // ---------------------------------------------------------------- quotas

  function Floor(v: nat, total: nat): nat
    requires total > 0
  {
    v * 100 / total
  }

  /** The fractional part of the quota, in units of 1/total. */
  function Rest(v: nat, total: nat): nat
    requires total > 0
  {
    v * 100 % total
  }

  function Floors(values: seq<nat>, total: nat): (f: seq<nat>)
    requires total > 0
    ensures |f| == |values| && forall i | 0 <= i < |f| :: f[i] == Floor(values[i], total)
  {
    if values == [] then [] else Floors(values[..|values| - 1], total) + [Floor(values[|values| - 1], total)]
  }

  function Rests(values: seq<nat>, total: nat): (r: seq<nat>)
    requires total > 0
    ensures |r| == |values| && forall i | 0 <= i < |r| :: r[i] == Rest(values[i], total) < total
  {
    if values == [] then [] else Rests(values[..|values| - 1], total) + [Rest(values[|values| - 1], total)]
  }

  lemma Distribute(a: nat, b: nat, total: nat, x: nat, y: nat, s: nat, v: nat)
    requires a * total + x == 100 * s && v * 100 == b * total + y
    ensures (a + b) * total + (x + y) == 100 * (s + v)
  {
    assert (a + b) * total == a * total + b * total;
  }

  lemma {:induction false} QuotasAdd(values: seq<nat>, total: nat)
    requires total > 0
    ensures Sum(Floors(values, total)) * total + Sum(Rests(values, total)) == 100 * Sum(values)
  {
    if values != [] {
      var init, v := values[..|values| - 1], values[|values| - 1];
      QuotasAdd(init, total);
      var f, r := Floors(values, total), Rests(values, total);
      assert f[..|f| - 1] == Floors(init, total) && r[..|r| - 1] == Rests(init, total);
      Distribute(Sum(Floors(init, total)), Floor(v, total), total, Sum(Rests(init, total)), Rest(v, total), Sum(init), v);
    }
  }

  lemma SmallerQuotient(f: nat, r: nat, g: nat, s: nat, total: nat)
    requires f < g && r < total
    ensures f * total + r < g * total + s
  {
    assert (f + 1) * total == f * total + total;
  }

  lemma FloorMonotone(v: nat, w: nat, total: nat)
    requires total > 0 && v > w
    ensures Floor(v, total) >= Floor(w, total)
    ensures Floor(v, total) == Floor(w, total) ==> Rest(v, total) > Rest(w, total)
  {
    if Floor(v, total) < Floor(w, total) {
      SmallerQuotient(Floor(v, total), Rest(v, total), Floor(w, total), Rest(w, total), total);
    }
  }

  // ---------------------------------------------------------------- the order of remainders

  function At(s: seq<nat>, i: nat): nat { if i < |s| then s[i] else 0 }

  /** `[0, ..., n - 1]`. */
  function Indices(n: nat): (s: seq<nat>)
    ensures |s| == n
  {
    if n == 0 then [] else Indices(n - 1) + [n - 1]
  }

  function ByRest(rests: seq<nat>): nat -> int {
    (i: nat) => -(At(rests, i) as int)
  }

  function OrderOf(rests: seq<nat>): seq<nat> {
    SortBy(ByRest(rests), Indices(|rests|))
  }

  /** Every place once, larger remainders first. */
  ghost predicate IsOrder(rests: seq<nat>, order: seq<nat>) {
    && |order| == |rests| && (forall k: nat :: k in order <==> k < |rests|)
    && (forall a, b | 0 <= a < b < |order| :: order[a] != order[b] && At(rests, order[a]) >= At(rests, order[b]))
  }

  lemma {:induction false} EachIndexOnce(n: nat, k: nat)
    ensures multiset(Indices(n))[k] == if k < n then 1 else 0
  {
    if n > 0 {
      EachIndexOnce(n - 1, k);
    }
  }

  lemma OrderIsOrder(rests: seq<nat>)
    ensures IsOrder(rests, OrderOf(rests))
  {
    var order := OrderOf(rests);
    forall k: nat ensures k in order <==> k < |rests| {
      EachIndexOnce(|rests|, k);
      assert k in order <==> k in multiset(order);
    }
    forall a, b | 0 <= a < b < |order| ensures order[a] != order[b] && At(rests, order[a]) >= At(rests, order[b]) {
      assert ByRest(rests)(order[a]) <= ByRest(rests)(order[b]);
      EachIndexOnce(|rests|, order[a]);
      OnceInMultiset(order, a, b);
    }
  }

  lemma OnceInMultiset(s: seq<nat>, a: nat, b: nat)
    requires a < b < |s| && multiset(s)[s[a]] <= 1
    ensures s[a] != s[b]
  {
    assert s == s[..b] + [s[b]] + s[b + 1..];
    assert s[..b][a] == s[a];
    assert s[a] in multiset(s[..b]);
  }

  function SumAt(order: seq<nat>, rests: seq<nat>): nat {
    if order == [] then 0 else SumAt(order[..|order| - 1], rests) + At(rests, order[|order| - 1])
  }

  lemma {:induction false} InsertSum(key: nat -> int, rests: seq<nat>, sorted: seq<nat>, i: nat)
    requires AscendingBy(key, sorted)
    ensures SumAt(InsertBy(key, sorted, i), rests) == SumAt(sorted, rests) + At(rests, i)
  {
    if sorted == [] || key(sorted[|sorted| - 1]) <= key(i) {
      assert (sorted + [i])[..|sorted|] == sorted;
    } else {
      var init, last := sorted[..|sorted| - 1], sorted[|sorted| - 1];
      InsertSum(key, rests, init, i);
      assert (InsertBy(key, init, i) + [last])[..|InsertBy(key, init, i)|] == InsertBy(key, init, i);
    }
  }

  lemma {:induction false} SortSum(key: nat -> int, rests: seq<nat>, items: seq<nat>)
    ensures SumAt(SortBy(key, items), rests) == SumAt(items, rests)
  {
    if items != [] {
      SortSum(key, rests, items[..|items| - 1]);
      InsertSum(key, rests, SortBy(key, items[..|items| - 1]), items[|items| - 1]);
    }
  }

  lemma {:induction false} IndexSum(rests: seq<nat>, n: nat)
    requires n <= |rests|
    ensures SumAt(Indices(n), rests) == Sum(rests[..n])
  {
    if n > 0 {
      IndexSum(rests, n - 1);
      assert Indices(n)[..n - 1] == Indices(n - 1) && rests[..n][..n - 1] == rests[..n - 1];
    }
  }

  lemma OrderSum(rests: seq<nat>)
    ensures SumAt(OrderOf(rests), rests) == Sum(rests)
  {
    SortSum(ByRest(rests), rests, Indices(|rests|));
    IndexSum(rests, |rests|);
    assert rests[..|rests|] == rests;
  }

  /** Remainders below `total` at `left` places, and zeros after them, cannot add up to `left` wholes. */
  lemma {:induction false} TooSmall(order: seq<nat>, rests: seq<nat>, total: nat, left: nat)
    requires total > 0 && left > 0
    requires forall a | 0 <= a < |order| :: At(rests, order[a]) < total && (a >= left ==> At(rests, order[a]) == 0)
    ensures SumAt(order, rests) < left * total
  {
    if order != [] {
      var init, last := order[..|order| - 1], order[|order| - 1];
      if left >= |order| && left > 1 {
        TooSmall(init, rests, total, left - 1);
        assert (left - 1) * total + total == left * total;
      } else if left < |order| {
        TooSmall(init, rests, total, left);
      } else {
        assert init == [];
      }
    }
  }

  // ---------------------------------------------------------------- the distribution

  lemma Leftover(f: nat, r: nat, total: nat, left: int)
    requires f * total + r == 100 * total && left == 100 - f
    ensures left * total == r
  {
    assert left * total == 100 * total - f * total;
  }

  /** The leftover in units of the total: the sum of all remainders. */
  lemma LeftoverIsRests(values: seq<nat>, total: nat, left: int)
    requires total > 0 && total == Sum(values) && left == 100 - Sum(Floors(values, total))
    ensures left * total == SumAt(OrderOf(Rests(values, total)), Rests(values, total))
  {
    QuotasAdd(values, total);
    OrderSum(Rests(values, total));
    Leftover(Sum(Floors(values, total)), Sum(Rests(values, total)), total, left);
  }

  lemma LeftoverBounds(order: seq<nat>, rests: seq<nat>, total: nat, left: int)
    requires total > 0 && order != [] && left * total == SumAt(order, rests)
    requires forall a | 0 <= a < |order| :: At(rests, order[a]) < total
    ensures 0 <= left < |order|
  {
    if left < 0 {
    }
    TooSmall(order, rests, total, |order|);
    if left >= |order| {
    }
  }

  lemma LeftoverPlace(order: seq<nat>, rests: seq<nat>, total: nat, left: int, a: nat)
    requires total > 0 && left * total == SumAt(order, rests) && a < left && a < |order|
    requires forall b | 0 <= b < |order| :: At(rests, order[b]) < total
    requires forall b | a < b < |order| :: At(rests, order[a]) >= At(rests, order[b])
    ensures At(rests, order[a]) > 0
  {
    var k := if a > 0 then a else 1;
    if At(rests, order[a]) == 0 {
      TooSmall(order, rests, total, k);
    }
  }

  /** What is left over is less than the number of parts, and goes to positive remainders. */
  lemma LeftoverFits(values: seq<nat>, total: nat, left: int)
    requires total > 0 && total == Sum(values) && left == 100 - Sum(Floors(values, total))
    ensures IsOrder(Rests(values, total), OrderOf(Rests(values, total)))
    ensures 0 <= left < |values|
    ensures forall a | 0 <= a < left :: At(Rests(values, total), OrderOf(Rests(values, total))[a]) > 0
  {
    var rests := Rests(values, total);
    var order := OrderOf(rests);
    OrderIsOrder(rests);
    LeftoverIsRests(values, total, left);
    forall a | 0 <= a < |order| ensures At(rests, order[a]) < total {
      assert order[a] in order;
    }
    LeftoverBounds(order, rests, total, left);
    forall a | 0 <= a < left ensures At(rests, order[a]) > 0 {
      LeftoverPlace(order, rests, total, left, a);
    }
  }

  /** The floors plus one at the first `k` places of the order. */
  ghost predicate Raised(floors: seq<nat>, order: seq<nat>, k: nat, shares: seq<nat>) {
    && |shares| == |floors| && k <= |order|
    && forall i | 0 <= i < |floors| :: shares[i] == floors[i] + if i in order[..k] then 1 else 0
  }

  /** `floors[i]++` along the order while something is left. */
  method GiveOut(floors: seq<nat>, order: seq<nat>, left: nat) returns (shares: seq<nat>)
    requires left <= |order| && forall a | 0 <= a < |order| :: order[a] < |floors|
    requires forall a, b | 0 <= a < b < |order| :: order[a] != order[b]
    ensures Raised(floors, order, left, shares) && Sum(shares) == Sum(floors) + left
  {
    shares := floors;
    var rest := left;
    for k := 0 to |order|
      invariant rest == (if k < left then left - k else 0)
      invariant Raised(floors, order, left - rest, shares) && Sum(shares) + rest == Sum(floors) + left
    {
      var i := order[k];
      if rest > 0 {
        SumUpdate(shares, i, shares[i] + 1);
        shares, rest := shares[i := shares[i] + 1], rest - 1;
      }
    }
  }

  function Leftover100(values: seq<nat>): int { if Sum(values) == 0 then 0 else 100 - Sum(Floors(values, Sum(values))) }

  /** What the bar shows: quotas rounded up or down so that the sum is 100. */
  ghost predicate IsApportioned(values: seq<nat>, shares: seq<nat>) {
    var total, left := Sum(values), Leftover100(values);
    total > 0 && 0 <= left < |values| && Raised(Floors(values, total), OrderOf(Rests(values, total)), left, shares)
  }

  method Apportion(values: seq<nat>) returns (shares: seq<nat>)
    requires Sum(values) > 0
    ensures |shares| == |values| && Sum(shares) == 100 && IsApportioned(values, shares)
  {
    var total := Sum(values);
    var floors := Floors(values, total);
    LeftoverFits(values, total, 100 - Sum(floors));
    var left: nat := 100 - Sum(floors);
    var order := OrderOf(Rests(values, total));
    forall a | 0 <= a < |order| ensures order[a] < |floors| {
      assert order[a] in order;
    }
    shares := GiveOut(floors, order, left);
  }

  // ---------------------------------------------------------------- what the shares promise

  /** The quota rounded down or up, and itself if it is whole. */
  predicate RoundsQuota(v: nat, total: nat, share: nat) {
    && total > 0
    && v * 100 / total <= share <= v * 100 / total + 1 && (v * 100 % total == 0 ==> share == v * 100 / total)
  }

  lemma SharesRoundQuotas(values: seq<nat>, shares: seq<nat>, i: nat)
    requires IsApportioned(values, shares) && i < |values|
    ensures |shares| == |values| && RoundsQuota(values[i], Sum(values), shares[i])
  {
    var total := Sum(values);
    var order, left := OrderOf(Rests(values, total)), 100 - Sum(Floors(values, total));
    LeftoverFits(values, total, left);
    if i in order[..left] {
      var a :| 0 <= a < left && order[a] == i;
      assert At(Rests(values, total), order[a]) > 0;
    }
  }

  lemma EarlierServed(rests: seq<nat>, order: seq<nat>, left: nat, i: nat, j: nat)
    requires IsOrder(rests, order) && left <= |order| && i < |rests| && At(rests, i) > At(rests, j) && j in order[..left]
    ensures i in order[..left]
  {
    var b :| 0 <= b < left && order[b] == j;
    assert i in order;
    var a :| 0 <= a < |order| && order[a] == i;
    assert a < b;
    assert order[..left][a] == i;
  }

  /** Who gets one of the leftover points has a larger remainder than who gets none, or the same one and an earlier place. */
  predicate LargestFirst(values: seq<nat>, shares: seq<nat>) {
    var total := Sum(values);
    total > 0 && |shares| == |values| &&
    forall i, j | 0 <= i < |values| && 0 <= j < |values| ::
      shares[i] == values[i] * 100 / total && shares[j] == values[j] * 100 / total + 1 ==>
        values[j] * 100 % total > values[i] * 100 % total || (values[j] * 100 % total == values[i] * 100 % total && j < i)
  }

  predicate Stable(key: nat -> int, s: seq<nat>) {
    forall a, b | 0 <= a < b < |s| && key(s[a]) == key(s[b]) :: s[a] < s[b]
  }

  lemma AppendIsStable(key: nat -> int, s: seq<nat>, x: nat)
    requires Stable(key, s) && forall a | 0 <= a < |s| && key(s[a]) == key(x) :: s[a] < x
    ensures Stable(key, s + [x])
  {
  }

  lemma {:induction false} InsertIsStable(key: nat -> int, sorted: seq<nat>, t: nat)
    requires AscendingBy<nat>(key, sorted) && Stable(key, sorted) && forall a | 0 <= a < |sorted| :: sorted[a] < t
    ensures Stable(key, InsertBy<nat>(key, sorted, t))
  {
    if sorted == [] || key(sorted[|sorted| - 1]) <= key(t) {
      AppendIsStable(key, sorted, t);
    } else {
      var init, last := sorted[..|sorted| - 1], sorted[|sorted| - 1];
      InsertIsStable(key, init, t);
      var before := InsertBy<nat>(key, init, t);
      forall a | 0 <= a < |before| && key(before[a]) == key(last) ensures before[a] < last {
        assert before[a] in multiset(before);
        assert before[a] in init;
        var c :| 0 <= c < |init| && init[c] == before[a];
        assert sorted[c] == before[a];
      }
      AppendIsStable(key, before, last);
    }
  }

  lemma IndicesStep(n: nat)
    ensures Indices(n + 1)[..n] == Indices(n) && Indices(n + 1)[n] == n
  {
  }

  lemma SortedHas(key: nat -> int, s: seq<nat>, x: nat)
    ensures x in SortBy<nat>(key, s) <==> x in s
  {
    assert x in multiset(SortBy<nat>(key, s)) <==> x in multiset(s);
  }

  lemma {:induction false} IndexBelow(n: nat, x: nat)
    ensures x in Indices(n) <==> x < n
  {
    if n > 0 { IndexBelow(n - 1, x); }
  }

  lemma {:induction false} OrderIsStable(key: nat -> int, n: nat)
    ensures Stable(key, SortBy<nat>(key, Indices(n)))
  {
    if n > 0 {
      var m: nat := n - 1;
      OrderIsStable(key, m);
      IndicesStep(m);
      var sorted := SortBy<nat>(key, Indices(m));
      forall a | 0 <= a < |sorted| ensures sorted[a] < m {
        SortedHas(key, Indices(m), sorted[a]);
        IndexBelow(m, sorted[a]);
      }
      InsertIsStable(key, sorted, m);
      assert SortBy<nat>(key, Indices(n)) == InsertBy<nat>(key, sorted, m);
    }
  }

  lemma PrefixHas(order: seq<nat>, left: nat, a: nat)
    requires left <= |order| && a < |order|
    ensures a < left ==> order[a] in order[..left]
  {
    if a < left {
      assert order[..left][a] == order[a];
    }
  }

  lemma EqualRestsInOrder(rests: seq<nat>, order: seq<nat>, left: nat, i: nat, j: nat)
    requires IsOrder(rests, order) && Stable(ByRest(rests), order) && left <= |order|
    requires i < |rests| && At(rests, i) == At(rests, j) && j in order[..left] && i !in order[..left] && i != j
    ensures j < i
  {
    var b :| 0 <= b < left && order[b] == j;
    assert i in order;
    var a :| 0 <= a < |order| && order[a] == i;
    PrefixHas(order, left, a);
    assert ByRest(rests)(order[b]) == ByRest(rests)(order[a]);
  }

  lemma LeftoverGoesToLargest(values: seq<nat>, shares: seq<nat>)
    requires IsApportioned(values, shares)
    ensures LargestFirst(values, shares)
  {
    var total := Sum(values);
    var rests := Rests(values, total);
    var order, left := OrderOf(rests), 100 - Sum(Floors(values, total));
    LeftoverFits(values, total, left);
    OrderIsStable(ByRest(rests), |rests|);
    forall i, j | 0 <= i < |values| && 0 <= j < |values| && shares[i] == values[i] * 100 / total && shares[j] == values[j] * 100 / total + 1
      ensures values[j] * 100 % total > values[i] * 100 % total || (values[j] * 100 % total == values[i] * 100 % total && j < i)
    {
      assert At(rests, i) == values[i] * 100 % total && At(rests, j) == values[j] * 100 % total;
      if At(rests, i) > At(rests, j) {
        EarlierServed(rests, order, left, i, j);
      } else if At(rests, i) == At(rests, j) {
        EqualRestsInOrder(rests, order, left, i, j);
      }
    }
  }

  /** A strictly larger count never gets a smaller share. */
  lemma SharesFollowCounts(values: seq<nat>, shares: seq<nat>, i: nat, j: nat)
    requires IsApportioned(values, shares) && i < |values| && j < |values| && values[i] > values[j]
    ensures |shares| == |values| && shares[i] >= shares[j]
  {
    var total := Sum(values);
    var rests := Rests(values, total);
    var order, left := OrderOf(rests), 100 - Sum(Floors(values, total));
    LeftoverFits(values, total, left);
    FloorMonotone(values[i], values[j], total);
    if At(rests, i) > At(rests, j) && j in order[..left] {
      EarlierServed(rests, order, left, i, j);
    }
  }

  /**
   The percentages of the bar: none if there is nothing to show; otherwise they add up to 100, each is its quota rounded down
   or up, the points left over go to the largest remainders, and a part with a larger count never shows less.
  */
  method SegmentedBar(parts: seq<nat>) returns (r: Option<seq<nat>>)
    ensures r.None? <==> Sum(parts) == 0
    ensures r.Some? ==> |r.value| == |parts| && Sum(r.value) == 100
    ensures r.Some? ==> forall i | 0 <= i < |parts| :: RoundsQuota(parts[i], Sum(parts), r.value[i])
    ensures r.Some? ==> LargestFirst(parts, r.value)
    ensures r.Some? ==> forall i, j | 0 <= i < |parts| && 0 <= j < |parts| && parts[i] > parts[j] :: r.value[i] >= r.value[j]
  {
    if Sum(parts) == 0 {
      return None;
    }
    var shares := Apportion(parts);
    LeftoverGoesToLargest(parts, shares);
    forall i | 0 <= i < |parts| ensures RoundsQuota(parts[i], Sum(parts), shares[i]) {
      SharesRoundQuotas(parts, shares, i);
    }
    forall i, j | 0 <= i < |parts| && 0 <= j < |parts| && parts[i] > parts[j] ensures shares[i] >= shares[j] {
      SharesFollowCounts(parts, shares, i, j);
    }
    return Some(shares);
  }
}
