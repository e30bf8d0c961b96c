/**
 Scoring of recognised names (`main` of `scripts/evaluate_ner.py`) for one sentence and one type: exact matches, and a
 greedy one-to-one matching of overlapping spans.
*/
module NerMatching {
  import opened Common

  datatype Span = Span(start: int, end: int)

  predicate Overlap(g: Span, p: Span) { p.start < g.end && g.start < p.end }

  predicate Covers(s: Span, x: int) { s.start <= x < s.end }

  /** Spans that are not empty overlap if and only if some position lies in both. */
  lemma OverlapIsCommonPosition(g: Span, p: Span)
    requires g.start < g.end && p.start < p.end
    ensures Overlap(g, p) <==> exists x :: Covers(g, x) && Covers(p, x)
  {
    var x := if g.start < p.start then p.start else g.start;
    assert Overlap(g, p) ==> Covers(g, x) && Covers(p, x);
  }

  // ---------------------------------------------------------------- tuple order

  predicate Before(a: Span, b: Span) { a.start < b.start || (a.start == b.start && a.end < b.end) }

  predicate Sorted(s: seq<Span>) {
    forall i, j | 0 <= i < j < |s| :: Before(s[i], s[j])
  }

  predicate IsFirst(spans: set<Span>, first: Span) {
    first in spans && forall x | x in spans :: x == first || Before(first, x)
  }

  lemma {:induction false} FirstExists(spans: set<Span>)
    requires spans != {}
    ensures exists first :: IsFirst(spans, first)
  {
    var one :| one in spans;
    var rest := spans - {one};
    assert spans == rest + {one};
    if rest == {} {
      assert IsFirst(spans, one);
    } else {
      FirstExists(rest);
      var other :| IsFirst(rest, other);
      assert IsFirst(spans, if Before(other, one) then other else one);
    }
  }

  function First(spans: set<Span>): (first: Span)
    requires spans != {}
    ensures IsFirst(spans, first)
  {
    FirstExists(spans);
    var first :| first in spans && IsFirst(spans, first);
    first
  }

  function Sort(spans: set<Span>): (s: seq<Span>)
    ensures Sorted(s) && |s| == |spans| && forall x :: x in s <==> x in spans
  {
    if spans == {} then [] else [First(spans)] + Sort(spans - {First(spans)})
  }

  // ---------------------------------------------------------------- matchings

  /** Gold `k` may be given prediction `j`. */
  predicate Fits(gold: seq<Span>, preds: seq<Span>, i: nat, used: set<nat>, k: nat, j: nat) {
    i <= k < |gold| && j < |preds| && j !in used && Overlap(gold[k], preds[j])
  }

  predicate OneToOne(m: map<nat, nat>) {
    forall k, l | k in m && l in m && m[k] == m[l] :: k == l
  }

  /** Golds from `i` on are assigned overlapping predictions outside `used`, each at most once. */
  ghost predicate IsMatching(gold: seq<Span>, preds: seq<Span>, i: nat, used: set<nat>, m: map<nat, nat>) {
    OneToOne(m) && forall k | k in m :: Fits(gold, preds, i, used, k, m[k])
  }

  /** Matchings of everything. */
  ghost predicate Matches(gold: seq<Span>, preds: seq<Span>, m: map<nat, nat>) { IsMatching(gold, preds, 0, {}, m) }

  /** A number of pairs that some matching reaches and none exceeds. */
  ghost predicate IsMaximum(gold: seq<Span>, preds: seq<Span>, n: nat) {
    && (exists m :: Matches(gold, preds, m) && |m| == n)
    && (forall m :: Matches(gold, preds, m) ==> |m| <= n)
  }

  /** The first unused overlapping prediction from place `j` on. */
  function NextHit(g: Span, preds: seq<Span>, used: set<nat>, j: nat): (r: Option<nat>)
    ensures r.Some? ==> j <= r.value < |preds| && r.value !in used && Overlap(g, preds[r.value])
    ensures forall k | j <= k < |preds| && k !in used && Overlap(g, preds[k]) :: r.Some? && r.value <= k
    decreases |preds| - j
  {
    if j >= |preds| then None
    else if j !in used && Overlap(g, preds[j]) then Some(j)
    else NextHit(g, preds, used, j + 1)
  }

  /** How many golds from place `i` on the greedy choice serves. */
  function Greedy(gold: seq<Span>, preds: seq<Span>, i: nat, used: set<nat>): nat
    decreases |gold| - i
  {
    if i >= |gold| then 0
    else
      match NextHit(gold[i], preds, used, 0)
      case None => Greedy(gold, preds, i + 1, used)
      case Some(j) => 1 + Greedy(gold, preds, i + 1, used + {j})
  }

  predicate EndsAscend(s: seq<Span>) {
    forall i, j | 0 <= i < j < |s| :: s[i].end <= s[j].end
  }

  predicate Identical(gold: seq<Span>, preds: seq<Span>, m: map<nat, nat>) {
    forall k | k in m :: k < |gold| && m[k] < |preds| && gold[k] == preds[m[k]]
  }

  /** Greedy choices lose nothing against the matching: no span reaches past a later one, or all pairs are identical spans. */
  predicate Tame(gold: seq<Span>, preds: seq<Span>, m: map<nat, nat>) {
    (EndsAscend(gold) && EndsAscend(preds)) || Identical(gold, preds, m)
  }

  /** What is left of a matching without one gold, when no other holds prediction `j`. */
  lemma Shrink(gold: seq<Span>, preds: seq<Span>, i: nat, used: set<nat>, m: map<nat, nat>, gone: nat, j: nat)
    requires IsMatching(gold, preds, i, used, m) && gone in m
    requires i in m ==> gone == i
    requires forall k | k in m && k != gone :: m[k] != j
    ensures IsMatching(gold, preds, i + 1, used + {j}, m - {gone}) && |m - {gone}| == |m| - 1
    ensures Tame(gold, preds, m) ==> Tame(gold, preds, m - {gone})
  {
    var rest := m - {gone};
    forall k | k in rest ensures Fits(gold, preds, i + 1, used + {j}, k, rest[k]) {
      assert Fits(gold, preds, i, used, k, m[k]);
    }
    assert rest.Keys == m.Keys - {gone};
  }

  lemma Swap(m: map<nat, nat>, i: nat, k: nat) returns (swapped: map<nat, nat>)
    requires OneToOne(m) && i in m && k in m && k != i
    ensures swapped.Keys == m.Keys && |swapped| == |m| && OneToOne(swapped)
    ensures swapped[i] == m[k] && swapped[k] == m[i] && forall l | l in m && l != i && l != k :: swapped[l] == m[l]
  {
    swapped := m[i := m[k]][k := m[i]];
    assert swapped.Keys == m.Keys;
    assert |swapped.Keys| == |swapped|;
  }

  /** The exchange: gold `i` hands its prediction to gold `k` and takes the greedy choice that `k` holds. */
  lemma Exchange(gold: seq<Span>, preds: seq<Span>, i: nat, used: set<nat>, m: map<nat, nat>, k: nat)
    returns (swapped: map<nat, nat>)
    requires IsMatching(gold, preds, i, used, m) && i in m && k in m && k != i
    requires Overlap(gold[i], preds[m[k]]) && gold[i].end <= gold[k].end && preds[m[k]].end <= preds[m[i]].end
    ensures IsMatching(gold, preds, i, used, swapped) && i in swapped && swapped[i] == m[k] && |swapped| == |m|
  {
    swapped := Swap(m, i, k);
    assert Fits(gold, preds, i, used, i, m[i]) && Fits(gold, preds, i, used, k, m[k]);
    forall l | l in swapped ensures Fits(gold, preds, i, used, l, swapped[l]) {
      assert Fits(gold, preds, i, used, l, m[l]);
    }
  }

  /** The first choice `j` of the next gold is held by gold `k`, while the next gold holds a later one. */
  lemma HeldByOther(gold: seq<Span>, preds: seq<Span>, i: nat, used: set<nat>, m: map<nat, nat>, k: nat)
    returns (rest: map<nat, nat>)
    requires Sorted(gold) && Sorted(preds) && IsMatching(gold, preds, i, used, m) && i in m && k in m && k != i
    requires NextHit(gold[i], preds, used, 0) == Some(m[k])
    requires Tame(gold, preds, m)
    ensures EndsAscend(gold) && EndsAscend(preds)
    ensures IsMatching(gold, preds, i + 1, used + {m[k]}, rest) && |rest| == |m| - 1
  {
    assert Fits(gold, preds, i, used, i, m[i]) && Fits(gold, preds, i, used, k, m[k]);
    assert m[k] < m[i];
    assert Before(gold[i], gold[k]) && Before(preds[m[k]], preds[m[i]]);
    var swapped := Exchange(gold, preds, i, used, m, k);
    Shrink(gold, preds, i, used, swapped, i, m[k]);
    rest := swapped - {i};
  }

  lemma NotConcerned(gold: seq<Span>, preds: seq<Span>, i: nat, used: set<nat>, m: map<nat, nat>, j: nat)
    requires IsMatching(gold, preds, i, used, m) && i !in m && forall k | k in m :: m[k] != j
    ensures IsMatching(gold, preds, i + 1, used + {j}, m)
  {
    forall k | k in m ensures Fits(gold, preds, i + 1, used + {j}, k, m[k]) {
      assert Fits(gold, preds, i, used, k, m[k]);
    }
  }

  /** Serving the next gold by its first choice costs any matching at most one pair. */
  lemma FirstChoice(gold: seq<Span>, preds: seq<Span>, i: nat, used: set<nat>, m: map<nat, nat>, j: nat)
    returns (rest: map<nat, nat>)
    requires Sorted(gold) && Sorted(preds) && IsMatching(gold, preds, i, used, m) && i < |gold|
    requires NextHit(gold[i], preds, used, 0) == Some(j)
    requires Tame(gold, preds, m)
    ensures IsMatching(gold, preds, i + 1, used + {j}, rest) && |rest| >= |m| - 1
    ensures Tame(gold, preds, rest)
  {
    if k: nat :| k in m && k != i && m[k] == j {
      assert m[k] == j;
      if i in m {
        rest := HeldByOther(gold, preds, i, used, m, k);
        assert Tame(gold, preds, rest);
      } else {
        Shrink(gold, preds, i, used, m, k, j);
        rest := m - {k};
      }
    } else if i in m {
      Shrink(gold, preds, i, used, m, i, j);
      rest := m - {i};
    } else {
      NotConcerned(gold, preds, i, used, m, j);
      rest := m;
    }
  }

  /**
   No matching beats the greedy choice if no span reaches past a later one, and none of identical spans does in any case.
  */
  lemma {:induction false} GreedyIsBest(gold: seq<Span>, preds: seq<Span>, i: nat, used: set<nat>, m: map<nat, nat>)
    requires Sorted(gold) && Sorted(preds) && IsMatching(gold, preds, i, used, m)
    requires Tame(gold, preds, m)
    ensures |m| <= Greedy(gold, preds, i, used)
    decreases |gold| - i
  {
    if i >= |gold| {
      assert m == map[];
    } else {
      var hit := NextHit(gold[i], preds, used, 0);
      if hit.Some? {
        var rest := FirstChoice(gold, preds, i, used, m, hit.value);
        GreedyIsBest(gold, preds, i + 1, used + {hit.value}, rest);
      } else {
        forall k | k in m ensures Fits(gold, preds, i + 1, used, k, m[k]) {
          assert Fits(gold, preds, i, used, k, m[k]);
        }
        GreedyIsBest(gold, preds, i + 1, used, m);
      }
    }
  }

  // ---------------------------------------------------------------- the program

  datatype Counts = Counts(tp: nat, fp: nat, fn: nat)

  /** Exact matches of one sentence and type. */
  method ScoreExact(gold: set<Span>, preds: set<Span>) returns (c: Counts)
    ensures c.tp == |gold * preds| && c.tp + c.fp == |preds| && c.tp + c.fn == |gold|
  {
    assert gold == (gold * preds) + (gold - preds) && preds == (gold * preds) + (preds - gold);
    c := Counts(|gold * preds|, |preds - gold|, |gold - preds|);
  }

  lemma ValuesGrow(m: map<nat, nat>, i: nat, j: nat)
    requires i !in m
    ensures m[i := j].Values == m.Values + {j} && |m[i := j]| == |m| + 1
  {
    var more := m[i := j];
    forall v ensures v in more.Values <==> v in m.Values + {j} {
      if v in m.Values {
        var k :| k in m && m[k] == v;
        assert more[k] == v;
      }
      if v == j { assert more[i] == v; }
    }
  }

  lemma Grow(gold: seq<Span>, preds: seq<Span>, m: map<nat, nat>, i: nat, j: nat)
    requires Matches(gold, preds, m) && i !in m && j !in m.Values && Fits(gold, preds, 0, {}, i, j)
    ensures Matches(gold, preds, m[i := j])
  {
    var more := m[i := j];
    forall k | k in m ensures m[k] != j {
      assert m[k] in m.Values;
    }
    forall k | k in more ensures Fits(gold, preds, 0, {}, k, more[k]) {
      if k != i { assert Fits(gold, preds, 0, {}, k, m[k]); }
    }
  }

  predicate Below(m: map<nat, nat>, i: nat) { forall k | k in m :: k < i }

  /** The loop's variables before gold `i`; `m` records the hits. */
  ghost predicate LoopOk(gold: seq<Span>, preds: seq<Span>, i: nat, used: set<nat>, m: map<nat, nat>) {
    && Matches(gold, preds, m) && used == m.Values && Below(m, i)
    && |m| + Greedy(gold, preds, i, used) == Greedy(gold, preds, 0, {})
  }

  /** One turn of the loop. */
  method MatchOne(gold: seq<Span>, preds: seq<Span>, i: nat, used: set<nat>, m: map<nat, nat>)
    returns (used': set<nat>, m': map<nat, nat>)
    requires LoopOk(gold, preds, i, used, m) && i < |gold|
    ensures LoopOk(gold, preds, i + 1, used', m')
  {
    var hit := NextHit(gold[i], preds, used, 0);
    if hit.None? {
      return used, m;
    }
    Grow(gold, preds, m, i, hit.value);
    ValuesGrow(m, i, hit.value);
    return used + {hit.value}, m[i := hit.value];
  }

  /** The greedy loop. */
  method MatchOverlaps(gold: seq<Span>, preds: seq<Span>) returns (m: map<nat, nat>)
    ensures |m| == Greedy(gold, preds, 0, {}) && Matches(gold, preds, m)
  {
    var used: set<nat> := {};
    m := map[];
    for i := 0 to |gold|
      invariant LoopOk(gold, preds, i, used, m)
    {
      used, m := MatchOne(gold, preds, i, used, m);
    }
  }

  // ---------------------------------------------------------------- what the counts mean

  /** No span lies strictly inside another. */
  predicate NoNesting(spans: set<Span>) {
    forall x, y | x in spans && y in spans && x.start < y.start :: x.end <= y.end
  }

  predicate Disjoint(spans: set<Span>) {
    forall x, y | x in spans && y in spans && x != y :: !Overlap(x, y)
  }

  predicate NonEmpty(spans: set<Span>) {
    forall x | x in spans :: x.start < x.end
  }

  lemma DisjointSpansDoNotNest(spans: set<Span>)
    requires Disjoint(spans) && NonEmpty(spans)
    ensures NoNesting(spans)
  {
    forall x, y | x in spans && y in spans && x.start < y.start ensures x.end <= y.end {
      assert !Overlap(x, y);
    }
  }

  lemma EndsAscendWithoutNesting(spans: set<Span>)
    requires NoNesting(spans)
    ensures EndsAscend(Sort(spans))
  {
    var s := Sort(spans);
    forall i, j | 0 <= i < j < |s| ensures s[i].end <= s[j].end {
      var x, y := s[i], s[j];
      assert Before(x, y) && x in spans && y in spans;
    }
  }

  lemma AddIdentical(gold: seq<Span>, preds: seq<Span>, rest: map<nat, nat>, i: nat, j: nat)
    requires Matches(gold, preds, rest) && Identical(gold, preds, rest)
    requires i < |gold| && j < |preds| && gold[i] == preds[j] && gold[i].start < gold[i].end
    requires forall k | k in rest :: gold[k] != gold[i]
    ensures Matches(gold, preds, rest[i := j]) && Identical(gold, preds, rest[i := j]) && |rest[i := j]| == |rest| + 1
  {
    forall k | k in rest ensures rest[k] != j {
      assert preds[rest[k]] == gold[k];
    }
    assert j !in rest.Values;
    Grow(gold, preds, rest, i, j);
    ValuesGrow(rest, i, j);
  }

  ghost predicate Among(gold: seq<Span>, m: map<nat, nat>, same: set<Span>) {
    forall k | k in m :: k < |gold| && gold[k] in same
  }

  /** The identical spans as a matching. */
  lemma {:induction false} IdenticalMatching(gold: seq<Span>, preds: seq<Span>, same: set<Span>)
    returns (m: map<nat, nat>)
    requires NonEmpty(same) && forall x | x in same :: x in gold && x in preds
    ensures Matches(gold, preds, m) && Identical(gold, preds, m) && |m| == |same| && Among(gold, m, same)
  {
    if same == {} {
      m := map[];
    } else {
      var x :| x in same;
      var rest := IdenticalMatching(gold, preds, same - {x});
      var i :| 0 <= i < |gold| && gold[i] == x;
      var j :| 0 <= j < |preds| && preds[j] == x;
      AddIdentical(gold, preds, rest, i, j);
      m := rest[i := j];
    }
  }

  /**
   Overlap scores of one sentence and type. True and false positives and misses add up; no span nesting another, and so
   for pairwise disjoint spans, the true positives are the most any one-to-one matching of overlapping spans reaches;
   and they are never fewer than the exact ones.
  */
  method ScoreOverlap(gold: set<Span>, preds: set<Span>) returns (c: Counts)
    ensures c.tp + c.fp == |preds| && c.tp + c.fn == |gold|
    ensures exists m :: Matches(Sort(gold), Sort(preds), m) && |m| == c.tp
    ensures NoNesting(gold) && NoNesting(preds) ==> IsMaximum(Sort(gold), Sort(preds), c.tp)
    ensures NonEmpty(gold * preds) ==> |gold * preds| <= c.tp
  {
    var g, p := Sort(gold), Sort(preds);
    var m := MatchOverlaps(g, p);
    var otp := |m|;
    MatchingFits(g, p, m);
    if NoNesting(gold) && NoNesting(preds) {
      EndsAscendWithoutNesting(gold);
      EndsAscendWithoutNesting(preds);
      forall other | Matches(g, p, other) ensures |other| <= otp {
        GreedyIsBest(g, p, 0, {}, other);
      }
    }
    if NonEmpty(gold * preds) {
      ghost var same := IdenticalMatching(g, p, gold * preds);
      GreedyIsBest(g, p, 0, {}, same);
    }
    c := Counts(otp, |preds| - otp, |gold| - otp);
  }

  lemma {:induction false} SetBelow(s: set<nat>, n: nat)
    requires forall x | x in s :: x < n
    ensures |s| <= n
  {
    if n > 0 {
      SetBelow(s - {n - 1}, n - 1);
    } else {
      assert s == {};
    }
  }

  lemma {:induction false} InjectiveCount(m: map<nat, nat>)
    requires OneToOne(m)
    ensures |m.Values| == |m|
  {
    if m == map[] {
      assert m.Values == {};
    } else {
      var k: nat :| k in m;
      var rest := m - {k};
      InjectiveCount(rest);
      assert m == rest[k := m[k]];
      ValuesGrow(rest, k, m[k]);
      assert m[k] !in rest.Values;
    }
  }

  lemma MatchingFits(gold: seq<Span>, preds: seq<Span>, m: map<nat, nat>)
    requires Matches(gold, preds, m)
    ensures |m| <= |gold| && |m| <= |preds|
  {
    assert forall k | k in m :: Fits(gold, preds, 0, {}, k, m[k]);
    SetBelow(m.Keys, |gold|);
    InjectiveCount(m);
    SetBelow(m.Values, |preds|);
  }

  /** With nesting the greedy choice can fall short: it takes the inner span's only partner for the outer one. */
  lemma NestingCanLose()
    ensures var gold, preds := [Span(0, 10), Span(1, 3)], [Span(1, 3), Span(5, 6)];
            && Sorted(gold) && Sorted(preds) && Greedy(gold, preds, 0, {}) == 1
            && Matches(gold, preds, map[0 := 1, 1 := 0])
  {
    var gold, preds := [Span(0, 10), Span(1, 3)], [Span(1, 3), Span(5, 6)];
    assert NextHit(gold[0], preds, {}, 0) == Some(0);
    assert NextHit(gold[1], preds, {0}, 0) == None by {
      assert NextHit(gold[1], preds, {0}, 2) == None;
    }
    assert Greedy(gold, preds, 2, {0}) == 0;
    assert {} + {0} == {0 as nat};
    var m: map<nat, nat> := map[0 := 1, 1 := 0];
    assert forall k | k in m :: Fits(gold, preds, 0, {}, k, m[k]);
  }
}
