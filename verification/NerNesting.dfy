/**
 When the greedy matching of `scripts/evaluate_ner.py` is optimal: it is so against all predictions
 without nesting if and only if the gold spans do not nest either.
*/
module NerNesting {
  import opened Common
  import opened NerMatching
  import Sorting

  // ---------------------------------------------------------------- the greedy assignment

  /** The pairs the greedy choice makes from gold `i` on. */
  ghost function Hits(gold: seq<Span>, preds: seq<Span>, i: nat, used: set<nat>): map<nat, nat>
    decreases |gold| - i
  {
    if i >= |gold| then map[]
    else
      match NextHit(gold[i], preds, used, 0)
      case None => Hits(gold, preds, i + 1, used)
      case Some(j) => Hits(gold, preds, i + 1, used + {j})[i := j]
  }

  /** An earlier gold holds prediction `j`. */
  ghost predicate TakenBefore(m: map<nat, nat>, n: nat, j: nat) {
    exists l :: l in m && l < n && m[l] == j
  }

  /** Gold `n` holds its first overlapping prediction that no earlier gold holds. */
  ghost predicate FirstFree(gold: seq<Span>, preds: seq<Span>, used: set<nat>, m: map<nat, nat>, n: nat)
    requires n in m && n < |gold|
  {
    forall j: nat | j < m[n] && j < |preds| && j !in used && Overlap(gold[n], preds[j]) :: TakenBefore(m, n, j)
  }

  lemma {:induction false} HitsAreGreedy(gold: seq<Span>, preds: seq<Span>, i: nat, used: set<nat>)
    ensures var m := Hits(gold, preds, i, used);
            && IsMatching(gold, preds, i, used, m) && |m| == Greedy(gold, preds, i, used)
            && forall n | n in m :: n < |gold| && FirstFree(gold, preds, used, m, n)
    decreases |gold| - i
  {
    if i < |gold| {
      var hit := NextHit(gold[i], preds, used, 0);
      if hit.None? {
        HitsAreGreedy(gold, preds, i + 1, used);
        var m := Hits(gold, preds, i + 1, used);
        assert forall n | n in m :: Fits(gold, preds, i + 1, used, n, m[n]);
      } else {
        HitsAreGreedy(gold, preds, i + 1, used + {hit.value});
        OneMoreHit(gold, preds, i, used, Hits(gold, preds, i + 1, used + {hit.value}), hit.value);
      }
    }
  }

  lemma MoreHitsMatch(gold: seq<Span>, preds: seq<Span>, i: nat, used: set<nat>, rest: map<nat, nat>, j: nat)
    requires Fits(gold, preds, i, used, i, j) && IsMatching(gold, preds, i + 1, used + {j}, rest)
    ensures IsMatching(gold, preds, i, used, rest[i := j]) && |rest[i := j]| == |rest| + 1
    ensures forall n | n in rest :: i < n < |gold| && rest[n] != j
  {
    forall n | n in rest ensures i < n < |gold| && rest[n] != j && Fits(gold, preds, i, used, n, rest[n]) {
      assert Fits(gold, preds, i + 1, used + {j}, n, rest[n]);
    }
    assert rest[i := j].Keys == rest.Keys + {i};
  }

  lemma StillFirst(gold: seq<Span>, preds: seq<Span>, i: nat, used: set<nat>, rest: map<nat, nat>, j: nat, n: nat)
    requires n in rest && i < n < |gold| && i !in rest && FirstFree(gold, preds, used + {j}, rest, n)
    ensures FirstFree(gold, preds, used, rest[i := j], n)
  {
    var m := rest[i := j];
    forall k: nat | k < m[n] && k < |preds| && k !in used && Overlap(gold[n], preds[k]) ensures TakenBefore(m, n, k) {
      if k == j {
        assert m[i] == k;
      } else {
        assert TakenBefore(rest, n, k);
        var l :| l in rest && l < n && rest[l] == k;
        assert m[l] == k;
      }
    }
  }

  lemma OneMoreHit(gold: seq<Span>, preds: seq<Span>, i: nat, used: set<nat>, rest: map<nat, nat>, j: nat)
    requires i < |gold| && NextHit(gold[i], preds, used, 0) == Some(j) && IsMatching(gold, preds, i + 1, used + {j}, rest)
    requires forall n | n in rest :: n < |gold| && FirstFree(gold, preds, used + {j}, rest, n)
    ensures var m := rest[i := j];
            && IsMatching(gold, preds, i, used, m) && |m| == |rest| + 1
            && forall n | n in m :: n < |gold| && FirstFree(gold, preds, used, m, n)
  {
    MoreHitsMatch(gold, preds, i, used, rest, j);
    forall n | n in rest ensures FirstFree(gold, preds, used, rest[i := j], n) {
      StillFirst(gold, preds, i, used, rest, j, n);
    }
    assert FirstFree(gold, preds, used, rest[i := j], i);
  }

  // ---------------------------------------------------------------- predictions that expose a nesting

  /** `early` spans that begin just before `e`, then `late` spans from `e`, all of them reaching past `beyond`. */
  function Trap(e: int, beyond: int, early: nat, late: nat): (preds: seq<Span>) {
    seq(early + late, j requires 0 <= j < early + late => Span(if j < early then e - 1 else e, beyond + j))
  }

  lemma TrapIsSorted(e: int, beyond: int, early: nat, late: nat)
    requires e < beyond
    ensures Sorted(Trap(e, beyond, early, late)) && NonEmpty(AsSet(Trap(e, beyond, early, late)))
    ensures NoNesting(AsSet(Trap(e, beyond, early, late)))
  {
    var preds := Trap(e, beyond, early, late);
    var spans := AsSet(preds);
    forall x | x in spans ensures x.start < x.end {
      var j: nat :| j < |preds| && preds[j] == x;
    }
    forall x, y | x in spans && y in spans && x.start < y.start ensures x.end <= y.end {
      var j: nat :| j < |preds| && preds[j] == x;
      var k: nat :| k < |preds| && preds[k] == y;
      assert j < early <= k;
    }
  }

  /** A sorted list is the sorted list of its members. */
  lemma {:induction false} SortOfSorted(s: seq<Span>)
    requires Sorted(s)
    ensures Sort(AsSet(s)) == s
  {
    if s != [] {
      var spans, rest := AsSet(s), s[1..];
      assert s == [s[0]] + rest;
      forall x | x in spans ensures x == s[0] || Before(s[0], x) {
        var i :| 0 <= i < |s| && s[i] == x;
      }
      assert s[0] in spans;
      assert First(spans) == s[0];
      assert s[0] !in rest by {
        forall i | 0 <= i < |rest| ensures rest[i] != s[0] {
          assert Before(s[0], s[i + 1]);
        }
      }
      assert spans - {s[0]} == AsSet(rest);
      SortOfSorted(rest);
    } else {
      assert AsSet(s) == {};
    }
  }

  // ---------------------------------------------------------------- a matching that serves every gold from `e` on

  function EndingAt(gold: seq<Span>, e: int): set<nat> { set i: nat | i < |gold| && gold[i].end == e }

  function EndingAfter(gold: seq<Span>, e: int): set<nat> { set i: nat | i < |gold| && gold[i].end > e }

  /** The `j`-th gold of a list is given prediction `j`. */
  lemma {:induction false} ServeList(gold: seq<Span>, preds: seq<Span>, golds: seq<nat>) returns (m: map<nat, nat>)
    requires Distinct(golds) && forall j: nat | j < |golds| :: Fits(gold, preds, 0, {}, golds[j], j)
    ensures Matches(gold, preds, m) && |m| == |golds|
    ensures forall i | i in m :: i in golds && m[i] < |golds|
  {
    m := map[];
    if golds != [] {
      var n: nat := |golds| - 1;
      var fewer := ServeList(gold, preds, golds[..n]);
      assert n !in fewer.Values;
      assert Fits(gold, preds, 0, {}, golds[n], n);
      Grow(gold, preds, fewer, golds[n], n);
      ValuesGrow(fewer, golds[n], n);
      m := fewer[golds[n] := n];
    }
  }

  predicate AllBefore(gold: seq<Span>, beyond: int) { forall i: nat | i < |gold| :: gold[i].start < beyond }

  /** The places of spans that end at `e`, then those of spans that end after it. */
  lemma ListIsDistinct(spans: seq<Span>, e: int)
    ensures Distinct(Sorting.Sorted(EndingAt(spans, e)) + Sorting.Sorted(EndingAfter(spans, e)))
  {
    var at, after := Sorting.Sorted(EndingAt(spans, e)), Sorting.Sorted(EndingAfter(spans, e));
    forall i, j | 0 <= i < j < |at + after| ensures (at + after)[i] != (at + after)[j] {
      assert if i < |at| then (at + after)[i] in EndingAt(spans, e) else (at + after)[i] in EndingAfter(spans, e);
      assert if j < |at| then (at + after)[j] in EndingAt(spans, e) else (at + after)[j] in EndingAfter(spans, e);
    }
  }

  lemma ServeAll(gold: seq<Span>, e: int, beyond: int) returns (m: map<nat, nat>)
    requires AllBefore(gold, beyond)
    ensures var early, late := |EndingAt(gold, e)|, |EndingAfter(gold, e)|;
            Matches(gold, Trap(e, beyond, early, late), m) && |m| == early + late
  {
    var at, after := Sorting.Sorted(EndingAt(gold, e)), Sorting.Sorted(EndingAfter(gold, e));
    var golds, preds := at + after, Trap(e, beyond, |at|, |after|);
    forall j: nat | j < |golds| ensures Fits(gold, preds, 0, {}, golds[j], j) {
      assert if j < |at| then golds[j] in at else golds[j] in after;
    }
    ListIsDistinct(gold, e);
    m := ServeList(gold, preds, golds);
  }

  // ---------------------------------------------------------------- the greedy choice serves fewer

  /** A one-to-one map of `n` keys into the numbers below `n` reaches them all. */
  lemma Saturated(m: map<nat, nat>, n: nat, j: nat)
    requires OneToOne(m) && |m| == n && j < n && forall k | k in m :: m[k] < n
    ensures j in m.Values
  {
    InjectiveCount(m);
    if j !in m.Values {
      SetBelow(m.Values + {j}, n);
    }
  }

  lemma SameSize(a: set<nat>, b: set<nat>)
    requires a <= b && |a| >= |b|
    ensures a == b
  {
    assert |b - a| == |b| - |a|;
    assert b == a + (b - a);
  }

  /** Only golds that end at or after `e` overlap a prediction, and those that end at `e` overlap early ones alone. */
  lemma WhoIsServed(gold: seq<Span>, e: int, beyond: int, early: nat, late: nat, m: map<nat, nat>)
    requires Matches(gold, Trap(e, beyond, early, late), m)
    ensures m.Keys <= EndingAt(gold, e) + EndingAfter(gold, e)
    ensures forall i | i in m && i in EndingAt(gold, e) :: m[i] < early
  {
    forall i | i in m ensures i in EndingAt(gold, e) + EndingAfter(gold, e) && (i in EndingAt(gold, e) ==> m[i] < early) {
      assert Fits(gold, Trap(e, beyond, early, late), 0, {}, i, m[i]);
    }
  }

  /** If every gold from `e` on is served, those that end at `e` use up the early predictions. */
  lemma EarlyUsedUp(gold: seq<Span>, e: int, beyond: int, m: map<nat, nat>, i: nat)
    requires var early, late := |EndingAt(gold, e)|, |EndingAfter(gold, e)|;
             Matches(gold, Trap(e, beyond, early, late), m) && |m| >= early + late
    requires i in EndingAfter(gold, e)
    ensures EndingAt(gold, e) <= m.Keys && i in m && m[i] >= |EndingAt(gold, e)|
  {
    var at, after := EndingAt(gold, e), EndingAfter(gold, e);
    WhoIsServed(gold, e, beyond, |at|, |after|, m);
    assert at !! after && |at + after| == |at| + |after|;
    SameSize(m.Keys, at + after);
    var ats := map l | l in m && l in at :: m[l];
    assert ats.Keys == at;
    assert |ats| == |ats.Keys|;
    if m[i] < |at| {
      Saturated(ats, |at|, m[i]);
    }
  }

  /** A prediction that suits two served golds is not passed over by the earlier one for a later prediction. */
  lemma EarlierTakesFirst(gold: seq<Span>, preds: seq<Span>, m: map<nat, nat>, i: nat, k: nat)
    requires Matches(gold, preds, m) && i < k && i in m && k in m && i < |gold| && FirstFree(gold, preds, {}, m, i)
    requires m[k] < |preds| && Overlap(gold[i], preds[m[k]])
    ensures m[i] <= m[k]
  {
    assert !TakenBefore(m, i, m[k]);
  }

  /** Of two nested golds, the outer one, which comes first, takes an early prediction. */
  lemma FallsShort(gold: seq<Span>, outer: nat, inner: nat, beyond: int)
    requires outer < inner < |gold| && gold[inner].end < gold[outer].end && AllBefore(gold, beyond)
    ensures var e := gold[inner].end;
            var early, late := |EndingAt(gold, e)|, |EndingAfter(gold, e)|;
            Greedy(gold, Trap(e, beyond, early, late), 0, {}) < early + late
  {
    var e := gold[inner].end;
    var early, late := |EndingAt(gold, e)|, |EndingAfter(gold, e)|;
    var preds := Trap(e, beyond, early, late);
    HitsAreGreedy(gold, preds, 0, {});
    var m := Hits(gold, preds, 0, {});
    if |m| >= early + late {
      EarlyUsedUp(gold, e, beyond, m, outer);
      WhoIsServed(gold, e, beyond, early, late, m);
      assert inner in EndingAt(gold, e);
      EarlierTakesFirst(gold, preds, m, outer, inner);
    }
  }

  // ---------------------------------------------------------------- the condition

  /** The greedy choice serves as many golds as any matching. */
  ghost predicate GreedyWins(gold: seq<Span>, preds: seq<Span>) { IsMaximum(gold, preds, Greedy(gold, preds, 0, {})) }

  lemma {:induction false} UpperBound(gold: seq<Span>, least: int) returns (beyond: int)
    ensures beyond >= least && AllBefore(gold, beyond)
  {
    beyond := least;
    if gold != [] {
      var last := gold[|gold| - 1];
      beyond := UpperBound(gold[..|gold| - 1], least);
      beyond := if last.start < beyond then beyond else last.start + 1;
    }
  }

  lemma NestedPair(g: seq<Span>, spans: set<Span>) returns (outer: nat, inner: nat)
    requires Sorted(g) && (forall x | x in spans :: x in g) && !NoNesting(spans)
    ensures outer < inner < |g| && g[outer].start < g[inner].start && g[inner].end < g[outer].end
  {
    var x, y :| x in spans && y in spans && x.start < y.start && y.end < x.end;
    outer :| outer < |g| && g[outer] == x;
    inner :| inner < |g| && g[inner] == y;
    assert !Before(g[inner], g[outer]);
  }

  /** For nested gold spans there are predictions without nesting on which another matching beats the greedy one. */
  lemma NestingLoses(gold: set<Span>) returns (preds: set<Span>)
    requires !NoNesting(gold)
    ensures NoNesting(preds) && NonEmpty(preds) && !GreedyWins(Sort(gold), Sort(preds))
  {
    var g := Sort(gold);
    var outer, inner := NestedPair(g, gold);
    var e := g[inner].end;
    var early, late := |EndingAt(g, e)|, |EndingAfter(g, e)|;
    var beyond := UpperBound(g, e + 1);
    var trap := Trap(e, beyond, early, late);
    TrapIsSorted(e, beyond, early, late);
    SortOfSorted(trap);
    preds := AsSet(trap);
    var m := ServeAll(g, e, beyond);
    FallsShort(g, outer, inner, beyond);
    assert Matches(g, trap, m) && |m| > Greedy(g, trap, 0, {});
  }

  lemma GreedyWinsWithoutNesting(gold: set<Span>, preds: set<Span>)
    requires NoNesting(gold) && NoNesting(preds)
    ensures GreedyWins(Sort(gold), Sort(preds))
  {
    EndsAscendWithoutNesting(gold);
    EndsAscendWithoutNesting(preds);
    HitsAreGreedy(Sort(gold), Sort(preds), 0, {});
    assert Matches(Sort(gold), Sort(preds), Hits(Sort(gold), Sort(preds), 0, {}));
    forall m | Matches(Sort(gold), Sort(preds), m) ensures |m| <= Greedy(Sort(gold), Sort(preds), 0, {}) {
      GreedyIsBest(Sort(gold), Sort(preds), 0, {}, m);
    }
  }

  /**
   The greedy choice is the best there is against all predictions without nesting, empty ones included or not, if and only if
   no gold nests another.
  */
  lemma GreedyWinsIffNoNesting(gold: set<Span>)
    ensures NoNesting(gold) <==> forall preds | NoNesting(preds) :: GreedyWins(Sort(gold), Sort(preds))
    ensures NoNesting(gold) <==> forall preds | NoNesting(preds) && NonEmpty(preds) :: GreedyWins(Sort(gold), Sort(preds))
  {
    if NoNesting(gold) {
      forall preds | NoNesting(preds) ensures GreedyWins(Sort(gold), Sort(preds)) {
        GreedyWinsWithoutNesting(gold, preds);
      }
    } else {
      var preds := NestingLoses(gold);
    }
  }

  // ---------------------------------------------------------------- golds that expose nested predictions

  /** The `j`-th gold is given the `j`-th prediction of a list. */
  lemma DealList(gold: seq<Span>, preds: seq<Span>, list: seq<nat>) returns (m: map<nat, nat>)
    requires Distinct(list) && forall j: nat | j < |list| :: Fits(gold, preds, 0, {}, j, list[j])
    ensures Matches(gold, preds, m) && |m| == |list|
  {
    m := map j: nat | j < |list| :: list[j];
    SizeOfPrefix(m, |list|);
  }

  lemma {:induction false} SizeOfPrefix(m: map<nat, nat>, n: nat)
    requires forall j: nat :: j in m <==> j < n
    ensures |m| == n
  {
    if n == 0 {
      assert m == map[];
    } else {
      var rest := m - {n - 1};
      SizeOfPrefix(rest, n - 1);
      assert m.Keys == rest.Keys + {n - 1};
    }
  }

  lemma DealAll(preds: seq<Span>, e: int, beyond: int) returns (m: map<nat, nat>)
    requires AllBefore(preds, beyond)
    ensures var early, late := |EndingAt(preds, e)|, |EndingAfter(preds, e)|;
            Matches(Trap(e, beyond, early, late), preds, m) && |m| == early + late
  {
    var at, after := Sorting.Sorted(EndingAt(preds, e)), Sorting.Sorted(EndingAfter(preds, e));
    var list, gold := at + after, Trap(e, beyond, |at|, |after|);
    forall j: nat | j < |list| ensures Fits(gold, preds, 0, {}, j, list[j]) {
      assert if j < |at| then list[j] in at else list[j] in after;
    }
    ListIsDistinct(preds, e);
    m := DealList(gold, preds, list);
  }

  /** A one-to-one map into a set no larger than itself reaches all of it. */
  lemma ReachesAll(m: map<nat, nat>, s: set<nat>)
    requires OneToOne(m) && m.Values <= s && |m| >= |s|
    ensures m.Values == s
  {
    InjectiveCount(m);
    SameSize(m.Values, s);
  }

  function Until(m: map<nat, nat>, cut: nat): map<nat, nat> { map j | j in m && j < cut :: m[j] }

  function From(m: map<nat, nat>, cut: nat): map<nat, nat> { map j | j in m && j >= cut :: m[j] }

  lemma PartsAddUp(m: map<nat, nat>, cut: nat)
    ensures |m| == |Until(m, cut)| + |From(m, cut)| && |Until(m, cut)| <= cut
  {
    assert m.Keys == Until(m, cut).Keys + From(m, cut).Keys;
    assert |m| == |m.Keys| && |From(m, cut)| == |From(m, cut).Keys|;
    SetBelow(Until(m, cut).Keys, cut);
  }

  lemma PartsAreDisjoint(m: map<nat, nat>, cut: nat, j: nat)
    requires OneToOne(m) && j in m && j < cut
    ensures m[j] !in From(m, cut).Values
  {
  }

  lemma LatesOverlapAfter(preds: seq<Span>, e: int, beyond: int, early: nat, late: nat, m: map<nat, nat>)
    requires Matches(Trap(e, beyond, early, late), preds, m)
    ensures From(m, early).Values <= EndingAfter(preds, e)
  {
    forall j | j in m && j >= early ensures m[j] in EndingAfter(preds, e) {
      assert Fits(Trap(e, beyond, early, late), preds, 0, {}, j, m[j]);
    }
  }

  lemma EarliesOverlap(preds: seq<Span>, e: int, beyond: int, early: nat, late: nat, m: map<nat, nat>)
    requires Matches(Trap(e, beyond, early, late), preds, m)
    ensures Until(m, early).Values <= EndingAt(preds, e) + EndingAfter(preds, e)
  {
    forall j | j in m && j < early ensures m[j] in EndingAt(preds, e) + EndingAfter(preds, e) {
      assert Fits(Trap(e, beyond, early, late), preds, 0, {}, j, m[j]);
    }
  }

  lemma OneToOneParts(m: map<nat, nat>, cut: nat)
    requires OneToOne(m)
    ensures OneToOne(Until(m, cut)) && OneToOne(From(m, cut))
  {
  }

  lemma SizeByValues(m: map<nat, nat>, s: set<nat>)
    requires OneToOne(m) && m.Values <= s
    ensures |m| <= |s|
  {
    InjectiveCount(m);
    Subset(m.Values, s);
  }

  /** If every gold of the trap is served, the late ones take all predictions that end after `e`, the early ones all that end at `e`. */
  lemma EachTakesItsOwn(preds: seq<Span>, e: int, beyond: int, m: map<nat, nat>)
    requires var early, late := |EndingAt(preds, e)|, |EndingAfter(preds, e)|;
             Matches(Trap(e, beyond, early, late), preds, m) && |m| >= early + late
    ensures From(m, |EndingAt(preds, e)|).Values == EndingAfter(preds, e)
    ensures Until(m, |EndingAt(preds, e)|).Values == EndingAt(preds, e)
  {
    var at, after := EndingAt(preds, e), EndingAfter(preds, e);
    var earlies, lates := Until(m, |at|), From(m, |at|);
    PartsAddUp(m, |at|);
    OneToOneParts(m, |at|);
    LatesOverlapAfter(preds, e, beyond, |at|, |after|, m);
    ReachesAll(lates, after);
    EarliesOverlap(preds, e, beyond, |at|, |after|, m);
    SizeByValues(lates, after);
    forall j | j in earlies ensures earlies[j] in at {
      PartsAreDisjoint(m, |at|, j);
      assert earlies[j] in earlies.Values;
    }
    ReachesAll(earlies, at);
  }

  lemma Holder(m: map<nat, nat>, p: nat) returns (j: nat)
    requires p in m.Values
    ensures j in m && m[j] == p
  {
    j :| j in m && m[j] == p;
  }

  /** Of two nested predictions, the outer one, which comes first, is gone before a late gold can have it. */
  lemma FallsShortOnPredictions(preds: seq<Span>, outer: nat, inner: nat, beyond: int)
    requires outer < inner < |preds| && preds[inner].end < preds[outer].end && AllBefore(preds, beyond)
    ensures var e := preds[inner].end;
            var early, late := |EndingAt(preds, e)|, |EndingAfter(preds, e)|;
            Greedy(Trap(e, beyond, early, late), preds, 0, {}) < early + late
  {
    var e := preds[inner].end;
    var early, late := |EndingAt(preds, e)|, |EndingAfter(preds, e)|;
    var gold := Trap(e, beyond, early, late);
    HitsAreGreedy(gold, preds, 0, {});
    var m := Hits(gold, preds, 0, {});
    if |m| >= early + late {
      EachTakesItsOwn(preds, e, beyond, m);
      var j := Holder(From(m, early), outer);
      var i := Holder(Until(m, early), inner);
      EarlierTakesFirst(gold, preds, m, i, j);
    }
  }

  /** For nested predictions there are golds without nesting on which another matching beats the greedy one. */
  lemma NestedPredictionsLose(preds: set<Span>) returns (gold: set<Span>)
    requires !NoNesting(preds)
    ensures NoNesting(gold) && NonEmpty(gold) && !GreedyWins(Sort(gold), Sort(preds))
  {
    var p := Sort(preds);
    var outer, inner := NestedPair(p, preds);
    var e := p[inner].end;
    var early, late := |EndingAt(p, e)|, |EndingAfter(p, e)|;
    var beyond := UpperBound(p, e + 1);
    var trap := Trap(e, beyond, early, late);
    TrapIsSorted(e, beyond, early, late);
    SortOfSorted(trap);
    gold := AsSet(trap);
    var m := DealAll(p, e, beyond);
    FallsShortOnPredictions(p, outer, inner, beyond);
    assert Matches(trap, p, m) && |m| > Greedy(trap, p, 0, {});
  }

  /** The greedy choice is the best there is for all golds without nesting, if and only if no prediction nests another. */
  lemma GreedyWinsIffNoNestedPrediction(preds: set<Span>)
    ensures NoNesting(preds) <==> forall gold | NoNesting(gold) :: GreedyWins(Sort(gold), Sort(preds))
    ensures NoNesting(preds) <==> forall gold | NoNesting(gold) && NonEmpty(gold) :: GreedyWins(Sort(gold), Sort(preds))
  {
    if NoNesting(preds) {
      forall gold | NoNesting(gold) ensures GreedyWins(Sort(gold), Sort(preds)) {
        GreedyWinsWithoutNesting(gold, preds);
      }
    } else {
      var gold := NestedPredictionsLose(preds);
    }
  }
}
