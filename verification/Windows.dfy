/**
 The sliding-window rules of `graph_analytics.py` (`rule_candidates`): bursts of calls between two parties and fan-in of
 transfers to one account. Times are seconds.
*/
module Windows {
  import opened Common
  import opened Sorting

  type Id = nat
  type Time = int

  function Itself(t: Time): Time { t }

  // ---------------------------------------------------------------- what a burst is

  /** The times of the list that lie in the window that opens at `start`. */
  function InWindow(times: seq<Time>, start: Time, width: Time): seq<Time> {
    if times == [] then []
    else
      var before, t := InWindow(times[..|times| - 1], start, width), times[|times| - 1];
      if start <= t <= start + width then before + [t] else before
  }

  lemma {:induction false} InWindowCounts(times: seq<Time>, start: Time, width: Time, t: Time)
    ensures multiset(InWindow(times, start, width))[t] == if start <= t <= start + width then multiset(times)[t] else 0
  {
    if times != [] {
      InWindowCounts(times[..|times| - 1], start, width, t);
      assert times == times[..|times| - 1] + [times[|times| - 1]];
    }
  }

  lemma SizeOf(s: seq<Time>)
    ensures |multiset(s)| == |s|
  {
  }

  /** The window's content depends on the multiset of times alone. */
  lemma InWindowOfSorted(times: seq<Time>, sorted: seq<Time>, start: Time, width: Time)
    requires multiset(sorted) == multiset(times)
    ensures multiset(InWindow(sorted, start, width)) == multiset(InWindow(times, start, width))
    ensures |InWindow(sorted, start, width)| == |InWindow(times, start, width)|
  {
    forall t ensures multiset(InWindow(sorted, start, width))[t] == multiset(InWindow(times, start, width))[t] {
      InWindowCounts(times, start, width, t);
      InWindowCounts(sorted, start, width, t);
    }
    assert multiset(InWindow(sorted, start, width)) == multiset(InWindow(times, start, width));
    SizeOf(InWindow(sorted, start, width));
    SizeOf(InWindow(times, start, width));
  }

  /** Calls that lie pairwise within the window, as a part of the recorded ones. */
  ghost predicate IsBurst(times: seq<Time>, calls: multiset<Time>, n: int, width: Time) {
    && calls <= multiset(times) && |calls| >= n && (exists t :: t in calls)
    && forall s, t | s in calls && t in calls :: t - s <= width
  }

  ghost predicate BurstHappened(times: seq<Time>, n: int, width: Time) {
    exists calls :: IsBurst(times, calls, n, width)
  }

  lemma {:induction false} LeastOf(calls: multiset<Time>) returns (least: Time)
    requires exists t :: t in calls
    ensures least in calls && forall t | t in calls :: least <= t
    decreases |calls|
  {
    least :| least in calls;
    var rest := calls - multiset{least};
    assert calls == rest + multiset{least};
    if exists t :: t in rest {
      var u := LeastOf(rest);
      least := if least <= u then least else u;
    }
  }

  /** Some calls form a burst if and only if some window that opens at a recorded call holds enough calls. */
  lemma BurstIffFullWindow(times: seq<Time>, n: int, width: Time)
    requires width >= 0
    ensures BurstHappened(times, n, width) <==> exists t :: t in times && |InWindow(times, t, width)| >= n
  {
    if calls: multiset<Time> :| IsBurst(times, calls, n, width) {
      var least := LeastOf(calls);
      var window := multiset(InWindow(times, least, width));
      forall t ensures calls[t] <= window[t] {
        InWindowCounts(times, least, width, t);
      }
      assert window == calls + (window - calls);
      assert least in multiset(times);
    }
    if t :| t in times && |InWindow(times, t, width)| >= n {
      var window := multiset(InWindow(times, t, width));
      forall u ensures window[u] <= multiset(times)[u] && (u in window ==> t <= u <= t + width) {
        InWindowCounts(times, t, width, u);
      }
      InWindowCounts(times, t, width, t);
      assert t in window;
      assert IsBurst(times, window, n, width);
    }
  }

  // ---------------------------------------------------------------- the burst detector

  datatype Burst = Burst(count: nat, start: Time, end: Time)

  /** The report names the earliest full window, all its calls and its last call. */
  ghost predicate BurstReport(times: seq<Time>, n: int, width: Time, b: Burst) {
    && b.start in times && b.count == |InWindow(times, b.start, width)| && b.count >= n
    && (forall t | t in times && t < b.start :: |InWindow(times, t, width)| < n)
    && b.end in InWindow(times, b.start, width) && forall t | t in InWindow(times, b.start, width) :: t <= b.end
  }

  function Clip(k: int, limit: nat): nat {
    if k < 0 then 0 else if k > limit then limit else k
  }

  /** Places `i` to `j` are those whose time lies in the window. */
  ghost predicate Bounds(sorted: seq<Time>, start: Time, width: Time, i: nat, j: nat) {
    && i <= j < |sorted|
    && (forall p | 0 <= p < i :: sorted[p] < start)
    && (forall p | i <= p <= j :: start <= sorted[p] <= start + width)
    && (forall p | j < p < |sorted| :: sorted[p] > start + width)
  }

  lemma {:induction false} PrefixWindow(sorted: seq<Time>, start: Time, width: Time, i: nat, j: nat, k: nat)
    requires Bounds(sorted, start, width, i, j) && k <= |sorted|
    ensures InWindow(sorted[..k], start, width) == sorted[i..j + 1][..Clip(k - i, j + 1 - i)]
  {
    if k > 0 {
      PrefixWindow(sorted, start, width, i, j, k - 1);
      assert sorted[..k][..k - 1] == sorted[..k - 1];
      if i <= k - 1 <= j {
        assert sorted[i..j + 1][..k - i] == sorted[i..j + 1][..k - 1 - i] + [sorted[k - 1]];
      }
    }
  }

  /** In an ascending list the window that opens at the first of several equal times is a slice. */
  lemma WindowIsSlice(sorted: seq<Time>, i: nat, j: nat, width: Time)
    requires AscendingBy(Itself, sorted) && i <= j < |sorted| && width >= 0
    requires i > 0 ==> sorted[i - 1] < sorted[i]
    requires sorted[j] - sorted[i] <= width && (j + 1 < |sorted| ==> sorted[j + 1] - sorted[i] > width)
    ensures InWindow(sorted, sorted[i], width) == sorted[i..j + 1]
  {
    assert Bounds(sorted, sorted[i], width, i, j) by {
      assert forall p | 0 <= p < i :: sorted[p] <= sorted[i - 1];
      assert forall p | j < p < |sorted| :: sorted[p] >= sorted[j + 1];
    }
    PrefixWindow(sorted, sorted[i], width, i, j, |sorted|);
    assert sorted[..|sorted|] == sorted;
  }

  lemma {:induction false} FirstEqual(sorted: seq<Time>, i: nat) returns (f: nat)
    requires AscendingBy(Itself, sorted) && i < |sorted|
    ensures f <= i && sorted[f] == sorted[i] && (f > 0 ==> sorted[f - 1] < sorted[f])
  {
    f := i;
    if i > 0 && sorted[i - 1] == sorted[i] {
      f := FirstEqual(sorted, i - 1);
    }
  }

  lemma NoEarlierReport(times: seq<Time>, sorted: seq<Time>, i: nat, n: int, width: Time, t: Time)
    requires AscendingBy(Itself, sorted) && multiset(sorted) == multiset(times) && i < |sorted|
    requires forall k | 0 <= k < i :: |InWindow(times, sorted[k], width)| < n
    requires t in times && t < sorted[i]
    ensures |InWindow(times, t, width)| < n
  {
    assert t in multiset(sorted);
    var k :| 0 <= k < |sorted| && sorted[k] == t;
    assert k < i;
  }

  lemma LastOfWindow(window: seq<Time>, slice: seq<Time>)
    requires AscendingBy(Itself, slice) && slice != [] && multiset(window) == multiset(slice)
    ensures slice[|slice| - 1] in window && forall t | t in window :: t <= slice[|slice| - 1]
  {
    assert slice[|slice| - 1] in multiset(window);
    forall t | t in window ensures t <= slice[|slice| - 1] {
      assert t in multiset(slice);
    }
  }

  lemma SliceAscending(sorted: seq<Time>, i: nat, j: nat)
    requires AscendingBy(Itself, sorted) && i <= j < |sorted|
    ensures AscendingBy(Itself, sorted[i..j + 1]) && sorted[i..j + 1][j - i] == sorted[j]
  {
  }

  lemma ReportEnd(times: seq<Time>, sorted: seq<Time>, i: nat, j: nat, width: Time)
    requires AscendingBy(Itself, sorted) && multiset(sorted) == multiset(times) && i <= j < |sorted|
    requires InWindow(sorted, sorted[i], width) == sorted[i..j + 1]
    ensures var window := InWindow(times, sorted[i], width);
            |window| == j - i + 1 && sorted[j] in window && forall t | t in window :: t <= sorted[j]
  {
    var slice := sorted[i..j + 1];
    InWindowOfSorted(times, sorted, sorted[i], width);
    SliceAscending(sorted, i, j);
    LastOfWindow(InWindow(times, sorted[i], width), slice);
  }

  /** The report made at place `i` when no earlier place could report. */
  lemma ReportHolds(times: seq<Time>, sorted: seq<Time>, i: nat, j: nat, n: int, width: Time)
    requires AscendingBy(Itself, sorted) && multiset(sorted) == multiset(times) && i <= j < |sorted| && j - i + 1 >= n
    requires InWindow(sorted, sorted[i], width) == sorted[i..j + 1]
    requires forall k | 0 <= k < i :: |InWindow(times, sorted[k], width)| < n
    ensures BurstReport(times, n, width, Burst(j - i + 1, sorted[i], sorted[j]))
  {
    ReportEnd(times, sorted, i, j, width);
    assert sorted[i] in times by { assert sorted[i] in multiset(times); }
    forall t | t in times && t < sorted[i] ensures |InWindow(times, t, width)| < n {
      NoEarlierReport(times, sorted, i, n, width, t);
    }
  }

  /** One turn of the outer loop. */
  method TryBurst(ghost times: seq<Time>, sorted: seq<Time>, i: nat, n: int, width: Time) returns (r: Option<Burst>)
    requires AscendingBy(Itself, sorted) && multiset(sorted) == multiset(times) && i < |sorted| && width >= 0
    requires forall k | 0 <= k < i :: |InWindow(times, sorted[k], width)| < n
    ensures r.Some? ==> BurstReport(times, n, width, r.value)
    ensures r.None? ==> |InWindow(times, sorted[i], width)| < n
  {
    var j := i;
    while j + 1 < |sorted| && sorted[j + 1] - sorted[i] <= width
      invariant i <= j < |sorted| && sorted[j] - sorted[i] <= width
    {
      j := j + 1;
    }
    ghost var f := FirstEqual(sorted, i);
    WindowIsSlice(sorted, f, j, width);
    InWindowOfSorted(times, sorted, sorted[i], width);
    if j - i + 1 < n {
      return None;
    }
    assert f == i;
    ReportHolds(times, sorted, i, j, n, width);
    return Some(Burst(j - i + 1, sorted[i], sorted[j]));
  }

  method DetectBurst(times: seq<Time>, n: int, width: Time) returns (r: Option<Burst>)
    requires width >= 0
    ensures r.Some? ==> BurstReport(times, n, width, r.value)
    ensures r.None? ==> forall t | t in times :: |InWindow(times, t, width)| < n
  {
    var sorted := SortBy(Itself, times);
    forall t | t in times ensures t in sorted {
      assert t in multiset(sorted);
    }
    for i := 0 to |sorted|
      invariant forall k | 0 <= k < i :: |InWindow(times, sorted[k], width)| < n
    {
      r := TryBurst(times, sorted, i, n, width);
      if r.Some? {
        return;
      }
    }
    return None;
  }

  // ---------------------------------------------------------------- fan-in

  /** One transfer to the account in question. */
  datatype Transfer = Transfer(time: Time, source: Id)

  function TimeOf(x: Transfer): Time { x.time }

  /** The distinct sources of the transfers in the window that opens at `start`. */
  function SourcesIn(items: seq<Transfer>, start: Time, width: Time): set<Id> {
    set x | x in items && start <= x.time <= start + width :: x.source
  }

  /** Recorded transfers that lie pairwise within the window and come from enough distinct sources. */
  ghost predicate IsFanIn(items: seq<Transfer>, some: set<Transfer>, k: int, width: Time) {
    && some != {} && (forall x | x in some :: x in items)
    && (forall x, y | x in some && y in some :: y.time - x.time <= width)
    && |set x | x in some :: x.source| >= k
  }

  ghost predicate FanInHappened(items: seq<Transfer>, k: int, width: Time) {
    exists some :: IsFanIn(items, some, k, width)
  }

  lemma {:induction false} EarliestOf(some: set<Transfer>) returns (first: Transfer)
    requires some != {}
    ensures first in some && forall x | x in some :: first.time <= x.time
  {
    first :| first in some;
    if some != {first} {
      var other := EarliestOf(some - {first});
      first := if first.time <= other.time then first else other;
    }
  }

  /** Such transfers exist if and only if some window that opens at a recorded transfer has enough sources. */
  lemma FanInIffFullWindow(items: seq<Transfer>, k: int, width: Time)
    requires width >= 0
    ensures FanInHappened(items, k, width) <==> exists x :: x in items && |SourcesIn(items, x.time, width)| >= k
  {
    if some: set<Transfer> :| IsFanIn(items, some, k, width) {
      var first := EarliestOf(some);
      Subset((set x | x in some :: x.source), SourcesIn(items, first.time, width));
      assert first in items;
    }
    if x :| x in items && |SourcesIn(items, x.time, width)| >= k {
      var some := set y | y in items && x.time <= y.time <= x.time + width;
      assert (set y | y in some :: y.source) == SourcesIn(items, x.time, width);
      assert x in some;
      assert IsFanIn(items, some, k, width);
    }
  }

  datatype FanIn = FanIn(sources: set<Id>, start: Time, end: Time)

  /** The report names the earliest qualifying window, all its sources and its last transfer. */
  ghost predicate FanInReport(items: seq<Transfer>, k: int, width: Time, r: FanIn) {
    && (exists x :: x in items && x.time == r.start)
    && r.sources == SourcesIn(items, r.start, width) && |r.sources| >= k
    && (forall x | x in items && x.time < r.start :: |SourcesIn(items, x.time, width)| < k)
    && (exists x :: x in items && x.time == r.end) && r.start <= r.end <= r.start + width
    && (forall x | x in items && x.time <= r.start + width :: x.time <= r.end)
  }

  lemma SourcesOfSorted(items: seq<Transfer>, sorted: seq<Transfer>, start: Time, width: Time)
    requires forall x :: x in items <==> x in sorted
    ensures SourcesIn(items, start, width) == SourcesIn(sorted, start, width)
  {
  }

  lemma WindowInSlice(sorted: seq<Transfer>, i: nat, j: nat, width: Time, x: Transfer)
    requires AscendingBy(TimeOf, sorted) && i <= j < |sorted|
    requires i > 0 ==> sorted[i - 1].time < sorted[i].time
    requires j + 1 < |sorted| ==> sorted[j + 1].time - sorted[i].time > width
    requires x in sorted && sorted[i].time <= x.time <= sorted[i].time + width
    ensures x in sorted[i..j + 1]
  {
    forall q | 0 <= q < i ensures sorted[q].time < sorted[i].time {
      assert TimeOf(sorted[q]) <= TimeOf(sorted[i - 1]);
    }
    forall q | j < q < |sorted| ensures sorted[q].time > sorted[i].time + width {
      assert TimeOf(sorted[q]) >= TimeOf(sorted[j + 1]);
    }
    var p :| 0 <= p < |sorted| && sorted[p] == x;
    assert x == sorted[i..j + 1][p - i];
  }

  lemma SliceInWindow(sorted: seq<Transfer>, i: nat, j: nat, width: Time, x: Transfer)
    requires AscendingBy(TimeOf, sorted) && i <= j < |sorted| && sorted[j].time - sorted[i].time <= width
    requires x in sorted[i..j + 1]
    ensures x in sorted && sorted[i].time <= x.time <= sorted[i].time + width
  {
    var p :| 0 <= p < |sorted[i..j + 1]| && sorted[i..j + 1][p] == x;
    assert x == sorted[i + p];
    assert TimeOf(sorted[i]) <= TimeOf(sorted[i + p]) <= TimeOf(sorted[j]);
  }

  function Sources(items: seq<Transfer>): set<Id> {
    set x | x in items :: x.source
  }

  /** In ascending order the sources of a window are those of a slice, if it opens at the first of equal times. */
  lemma SourcesAreSlice(sorted: seq<Transfer>, i: nat, j: nat, width: Time)
    requires AscendingBy(TimeOf, sorted) && i <= j < |sorted|
    requires i > 0 ==> sorted[i - 1].time < sorted[i].time
    requires sorted[j].time - sorted[i].time <= width && (j + 1 < |sorted| ==> sorted[j + 1].time - sorted[i].time > width)
    ensures SourcesIn(sorted, sorted[i].time, width) == Sources(sorted[i..j + 1])
  {
    forall s | s in SourcesIn(sorted, sorted[i].time, width) ensures s in Sources(sorted[i..j + 1]) {
      var x: Transfer :| x in sorted && sorted[i].time <= x.time <= sorted[i].time + width && x.source == s;
      WindowInSlice(sorted, i, j, width, x);
    }
    forall s | s in Sources(sorted[i..j + 1]) ensures s in SourcesIn(sorted, sorted[i].time, width) {
      var x: Transfer :| x in sorted[i..j + 1] && x.source == s;
      SliceInWindow(sorted, i, j, width, x);
    }
  }

  lemma {:induction false} FirstTransferAt(sorted: seq<Transfer>, i: nat) returns (f: nat)
    requires AscendingBy(TimeOf, sorted) && i < |sorted|
    ensures f <= i && sorted[f].time == sorted[i].time && (f > 0 ==> sorted[f - 1].time < sorted[f].time)
  {
    f := i;
    if i > 0 && sorted[i - 1].time == sorted[i].time {
      f := FirstTransferAt(sorted, i - 1);
    }
  }

  lemma SameMembers(items: seq<Transfer>, sorted: seq<Transfer>)
    requires multiset(sorted) == multiset(items)
    ensures forall x :: x in items <==> x in sorted
  {
    forall x ensures x in items <==> x in sorted {
      assert x in items <==> x in multiset(items);
      assert x in sorted <==> x in multiset(sorted);
    }
  }

  lemma LastInWindow(sorted: seq<Transfer>, i: nat, j: nat, width: Time, x: Transfer)
    requires AscendingBy(TimeOf, sorted) && i <= j < |sorted| && (j + 1 < |sorted| ==> sorted[j + 1].time - sorted[i].time > width)
    requires x in sorted && x.time <= sorted[i].time + width
    ensures x.time <= sorted[j].time
  {
    forall q | j < q < |sorted| ensures sorted[q].time > sorted[i].time + width {
      assert TimeOf(sorted[q]) >= TimeOf(sorted[j + 1]);
    }
    var p :| 0 <= p < |sorted| && sorted[p] == x;
    assert TimeOf(sorted[p]) <= TimeOf(sorted[j]);
  }

  /** The report made at place `i` when no earlier place could report. */
  lemma FanInReportHolds(items: seq<Transfer>, sorted: seq<Transfer>, i: nat, j: nat, k: int, width: Time)
    requires AscendingBy(TimeOf, sorted) && i <= j < |sorted| && width >= 0
    requires forall x :: x in items <==> x in sorted
    requires sorted[j].time - sorted[i].time <= width && (j + 1 < |sorted| ==> sorted[j + 1].time - sorted[i].time > width)
    requires |SourcesIn(items, sorted[i].time, width)| >= k
    requires forall p | 0 <= p < i :: |SourcesIn(items, sorted[p].time, width)| < k
    ensures FanInReport(items, k, width, FanIn(SourcesIn(items, sorted[i].time, width), sorted[i].time, sorted[j].time))
  {
    assert sorted[i] in items && sorted[j] in items;
    assert TimeOf(sorted[i]) <= TimeOf(sorted[j]);
    forall q | i <= q < |sorted| ensures sorted[q].time >= sorted[i].time {
      assert TimeOf(sorted[q]) >= TimeOf(sorted[i]);
    }
    forall x | x in items && x.time < sorted[i].time ensures |SourcesIn(items, x.time, width)| < k {
      var p :| 0 <= p < |sorted| && sorted[p] == x;
    }
    forall x | x in items && x.time <= sorted[i].time + width ensures x.time <= sorted[j].time {
      LastInWindow(sorted, i, j, width, x);
    }
  }

  /** The longest window that opens at place `i`, with its sources. */
  method Extend(sorted: seq<Transfer>, i: nat, width: Time) returns (srcs: set<Id>, j: nat)
    requires i < |sorted| && width >= 0
    ensures i <= j < |sorted| && sorted[j].time - sorted[i].time <= width
    ensures j + 1 < |sorted| ==> sorted[j + 1].time - sorted[i].time > width
    ensures srcs == Sources(sorted[i..j + 1])
  {
    srcs, j := {sorted[i].source}, i;
    assert sorted[i..i + 1] == [sorted[i]];
    while j + 1 < |sorted| && sorted[j + 1].time - sorted[i].time <= width
      invariant i <= j < |sorted| && sorted[j].time - sorted[i].time <= width
      invariant srcs == Sources(sorted[i..j + 1])
    {
      assert sorted[i..j + 2] == sorted[i..j + 1] + [sorted[j + 1]];
      j := j + 1;
      srcs := srcs + {sorted[j].source};
    }
  }

  /** What `Extend` finds is part of the window's sources, and all of them at the first of equal times. */
  lemma ExtendedSources(items: seq<Transfer>, sorted: seq<Transfer>, i: nat, j: nat, width: Time) returns (f: nat)
    requires AscendingBy(TimeOf, sorted) && (forall x :: x in items <==> x in sorted) && i <= j < |sorted|
    requires sorted[j].time - sorted[i].time <= width && (j + 1 < |sorted| ==> sorted[j + 1].time - sorted[i].time > width)
    ensures f <= i && sorted[f].time == sorted[i].time
    ensures |Sources(sorted[i..j + 1])| <= |SourcesIn(items, sorted[i].time, width)|
    ensures f == i ==> Sources(sorted[i..j + 1]) == SourcesIn(items, sorted[i].time, width)
  {
    f := FirstTransferAt(sorted, i);
    SourcesOfSorted(items, sorted, sorted[i].time, width);
    SourcesAreSlice(sorted, f, j, width);
    Subset(Sources(sorted[i..j + 1]), SourcesIn(items, sorted[i].time, width));
  }

  /** One turn of the outer loop. */
  method TryFrom(ghost items: seq<Transfer>, sorted: seq<Transfer>, i: nat, k: int, width: Time)
    returns (r: Option<FanIn>)
    requires AscendingBy(TimeOf, sorted) && (forall x :: x in items <==> x in sorted) && i < |sorted| && width >= 0
    requires forall p | 0 <= p < i :: |SourcesIn(items, sorted[p].time, width)| < k
    ensures r.Some? ==> FanInReport(items, k, width, r.value)
    ensures r.None? ==> |SourcesIn(items, sorted[i].time, width)| < k
  {
    var srcs, j := Extend(sorted, i, width);
    ghost var f := ExtendedSources(items, sorted, i, j, width);
    if |srcs| < k {
      return None;
    }
    assert f == i;
    FanInReportHolds(items, sorted, i, j, k, width);
    return Some(FanIn(srcs, sorted[i].time, sorted[j].time));
  }

  method DetectFanIn(items: seq<Transfer>, k: int, width: Time) returns (r: Option<FanIn>)
    requires width >= 0
    ensures r.Some? ==> FanInReport(items, k, width, r.value)
    ensures r.None? ==> forall x | x in items :: |SourcesIn(items, x.time, width)| < k
  {
    var sorted := SortBy(TimeOf, items);
    SameMembers(items, sorted);
    for i := 0 to |sorted|
      invariant forall p | 0 <= p < i :: |SourcesIn(items, sorted[p].time, width)| < k
    {
      r := TryFrom(items, sorted, i, k, width);
      if r.Some? {
        return;
      }
    }
    return None;
  }
}
