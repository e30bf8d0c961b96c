/**
 Collapsing parallel edges (`aggregate` of `graph_analytics.py`): one pass with running values per (source, target, type)
 against what each group of edges contains. Rounding, decay scores and node copies are not modelled.
*/
module Aggregate {
  import opened Common
  import Sorting

  type Id = nat
  type Time = int

  /** An edge of the projection; a missing time is the empty string, which the code treats alike. */
  datatype Edge = Edge(source: Id, target: Id, rel: Id, claim: Id, evidence: Id, method_: Option<Id>, time: string,
          weight: real, confidence: real, missing: bool, governance: Governance)

  datatype Governance = Governance(jurisdiction: Option<Id>, accessClass: Option<Id>, authority: Option<Id>)

  datatype Key = Key(source: Id, target: Id, rel: Id)

  function KeyOf(e: Edge): Key { Key(e.source, e.target, e.rel) }

  /** The edges of a group, in order. */
  function GroupOf(edges: seq<Edge>, k: Key): seq<Edge> {
    if edges == [] then []
    else
      var before, e := GroupOf(edges[..|edges| - 1], k), edges[|edges| - 1];
      if KeyOf(e) == k then before + [e] else before
  }

  /** `at` are the places, in order, of the edges with the source, target and type of the key, and `group` is what stands there. */
  ghost predicate StandsAt(edges: seq<Edge>, k: Key, group: seq<Edge>, at: seq<nat>) {
    && Sorting.Increasing(at) && |at| == |group|
    && (forall j: nat :: j in at <==>
          j < |edges| && edges[j].source == k.source && edges[j].target == k.target && edges[j].rel == k.rel)
    && (forall i | 0 <= i < |at| :: at[i] < |edges| && group[i] == edges[at[i]])
  }

  ghost predicate IsGroup(edges: seq<Edge>, k: Key, group: seq<Edge>) { exists at :: StandsAt(edges, k, group, at) }

  lemma {:induction false} GroupStands(edges: seq<Edge>, k: Key) returns (at: seq<nat>)
    ensures StandsAt(edges, k, GroupOf(edges, k), at)
  {
    at := [];
    if edges != [] {
      var n := |edges| - 1;
      at := GroupStands(edges[..n], k);
      forall i | 0 <= i < |at| ensures at[i] < n {
        assert at[i] in at;
      }
      if KeyOf(edges[n]) == k {
        at := at + [n];
      }
    }
  }

  // ---------------------------------------------------------------- the order of strings

  predicate AtMost(a: string, b: string) {
    a == [] || (b != [] && (a[0] < b[0] || (a[0] == b[0] && AtMost(a[1..], b[1..]))))
  }

  lemma {:induction false} AtMostTotal(a: string, b: string)
    ensures AtMost(a, b) || AtMost(b, a)
    ensures AtMost(a, b) && AtMost(b, a) ==> a == b
    ensures a == b ==> AtMost(a, b)
  {
    if a != [] && b != [] {
      AtMostTotal(a[1..], b[1..]);
      assert a == [a[0]] + a[1..] && b == [b[0]] + b[1..];
    }
  }

  lemma {:induction false} AtMostChains(a: string, b: string, c: string)
    requires AtMost(a, b) && AtMost(b, c)
    ensures AtMost(a, c)
  {
    if a != [] && a[0] == b[0] == c[0] {
      AtMostChains(a[1..], b[1..], c[1..]);
    }
  }

  // ---------------------------------------------------------------- what a summary says

  const CLAIM_IDS_SHOWN: nat := 50

  function TotalWeight(group: seq<Edge>): real {
    if group == [] then 0.0 else TotalWeight(group[..|group| - 1]) + group[|group| - 1].weight
  }

  function Missing(group: seq<Edge>): nat {
    if group == [] then 0 else Missing(group[..|group| - 1]) + if group[|group| - 1].missing then 1 else 0
  }

  /** Sums over groups: each edge adds its own weight, and itself if it is missing data. */
  lemma {:induction false} TotalsAddUp(a: seq<Edge>, b: seq<Edge>)
    ensures TotalWeight(a + b) == TotalWeight(a) + TotalWeight(b) && Missing(a + b) == Missing(a) + Missing(b)
    ensures forall e: Edge :: TotalWeight([e]) == e.weight && Missing([e]) == if e.missing then 1 else 0
  {
    forall e: Edge ensures TotalWeight([e]) == e.weight && Missing([e]) == if e.missing then 1 else 0 {
      assert [e][..0] == [];
    }
    if b == [] {
      assert a + b == a;
    } else {
      TotalsAddUp(a, b[..|b| - 1]);
      assert (a + b)[..|a + b| - 1] == a + b[..|b| - 1];
    }
  }

  /** Counts, sums and the ids of the first claims. */
  ghost predicate Tallied(group: seq<Edge>, a: Summary) {
    && a.count == |group| && a.weight == TotalWeight(group) && a.missing == Missing(group)
    && |a.claimIds| == (if |group| < 50 then |group| else 50)
    && forall i | 0 <= i < |a.claimIds| :: a.claimIds[i] == group[i].claim
  }

  ghost predicate Collected(group: seq<Edge>, a: Summary) {
    && a.evidence == (set e | e in group :: e.evidence)
    && a.methods == (set e | e in group :: e.method_)
  }

  ghost predicate LeastConfident(group: seq<Edge>, a: Summary) {
    && a.minConfidence <= 1.0 && (forall e | e in group :: a.minConfidence <= e.confidence)
    && (a.minConfidence == 1.0 || exists e :: e in group && e.confidence == a.minConfidence)
  }

  /** The first and last recorded time strings of the group, if any edge has one. */
  ghost predicate Spans(group: seq<Edge>, a: Summary) {
    && (a.first.None? <==> forall e | e in group :: e.time == "") && (a.last.None? <==> a.first.None?)
    && (a.first.Some? ==>
          && a.first.value != "" && a.last.value != ""
          && (exists e :: e in group && e.time == a.first.value) && (exists e :: e in group && e.time == a.last.value)
          && forall e | e in group && e.time != "" :: AtMost(a.first.value, e.time) && AtMost(e.time, a.last.value))
  }

  /** The last of the edges with the greatest time; undated edges come before all dated ones. */
  ghost predicate IsLatest(group: seq<Edge>, i: nat) {
    && i < |group|
    && (forall j | 0 <= j < |group| :: AtMost(group[j].time, group[i].time))
    && (forall j | i < j < |group| :: group[j].time != group[i].time)
  }

  ghost predicate Governed(group: seq<Edge>, seenAt: Option<string>, g: Governance) {
    if group == [] then seenAt.None?
    else seenAt.Some? && exists i: nat :: IsLatest(group, i) && group[i].time == seenAt.value && group[i].governance == g
  }

  function Jurisdiction(e: Edge): Option<Id> { e.governance.jurisdiction }

  function AccessClass(e: Edge): Option<Id> { e.governance.accessClass }

  function Authority(e: Edge): Option<Id> { e.governance.authority }

  /** Two edges of the group disagree on a field that both have. */
  ghost predicate DisagreeOn(group: seq<Edge>, field: Edge -> Option<Id>) {
    exists x, y :: x in group && y in group && field(x).Some? && field(y).Some? && field(x) != field(y)
  }

  ghost predicate Disagree(group: seq<Edge>) {
    DisagreeOn(group, Jurisdiction) || DisagreeOn(group, AccessClass) || DisagreeOn(group, Authority)
  }

  // ---------------------------------------------------------------- running values

  datatype Summary = Summary(count: nat, weight: real, minConfidence: real, missing: nat, methods: set<Option<Id>>,
          claimIds: seq<Id>, evidence: set<Id>, first: Option<string>, last: Option<string>)

  /** A summary under construction, with the values that are dropped at the end. */
  datatype Running = Running(summary: Summary, seenAt: Option<string>, governance: Governance, seen: GovernanceSets)

  datatype GovernanceSets = GovernanceSets(jurisdictions: set<Id>, accessClasses: set<Id>, authorities: set<Id>)

  const NEW := Running(Summary(0, 0.0, 1.0, 0, {}, [], {}, None, None), None, Governance(None, None, None), GovernanceSets({}, {}, {}))

  function ValuesOf(group: seq<Edge>, field: Edge -> Option<Id>): set<Id> {
    set e | e in group && field(e).Some? :: field(e).value
  }

  ghost predicate SetsOf(group: seq<Edge>, s: GovernanceSets) {
    && s.jurisdictions == ValuesOf(group, Jurisdiction)
    && s.accessClasses == ValuesOf(group, AccessClass)
    && s.authorities == ValuesOf(group, Authority)
  }

  ghost predicate Summed(group: seq<Edge>, a: Summary) {
    Tallied(group, a) && Collected(group, a) && LeastConfident(group, a) && Spans(group, a)
  }

  ghost predicate RunningOk(group: seq<Edge>, a: Running) {
    Summed(group, a.summary) && Governed(group, a.seenAt, a.governance) && SetsOf(group, a.seen)
  }

  /** Counts and sums after one more edge. */
  method Tally(a: Summary, d: Edge, ghost group: seq<Edge>) returns (b: Summary)
    requires Tallied(group, a)
    ensures Tallied(group + [d], b)
    ensures b == a.(count := b.count, weight := b.weight, missing := b.missing, claimIds := b.claimIds)
  {
    assert (group + [d])[..|group|] == group;
    b := a.(count := a.count + 1, weight := a.weight + d.weight, missing := a.missing + if d.missing then 1 else 0);
    if |a.claimIds| < CLAIM_IDS_SHOWN {
      b := b.(claimIds := a.claimIds + [d.claim]);
    }
  }

  method Collect(a: Summary, d: Edge, ghost group: seq<Edge>) returns (b: Summary)
    requires Collected(group, a)
    ensures Collected(group + [d], b) && b == a.(methods := b.methods, evidence := b.evidence)
  {
    b := a.(methods := a.methods + {d.method_}, evidence := a.evidence + {d.evidence});
  }

  method Least(a: Summary, d: Edge, ghost group: seq<Edge>) returns (b: Summary)
    requires LeastConfident(group, a)
    ensures LeastConfident(group + [d], b) && b == a.(minConfidence := b.minConfidence)
  {
    b := if d.confidence < a.minConfidence then a.(minConfidence := d.confidence) else a;
    assert d in group + [d];
    if b.minConfidence != 1.0 && b == a {
      ghost var e :| e in group && e.confidence == a.minConfidence;
      assert e in group + [d];
    }
  }

  method Stretch(a: Summary, d: Edge, ghost group: seq<Edge>) returns (b: Summary)
    requires Spans(group, a)
    ensures Spans(group + [d], b) && b == a.(first := b.first, last := b.last)
  {
    b := a;
    if d.time != "" {
      if a.first.None? || !AtMost(a.first.value, d.time) {
        b := b.(first := Some(d.time));
      }
      if a.last.None? || !AtMost(d.time, a.last.value) {
        b := b.(last := Some(d.time));
      }
      SpanGrows(group, d, a, b);
    }
  }

  lemma SpanGrows(group: seq<Edge>, d: Edge, a: Summary, b: Summary)
    requires Spans(group, a) && d.time != "" && b.first.Some? && b.last.Some?
    requires b.first == if a.first.None? || !AtMost(a.first.value, d.time) then Some(d.time) else a.first
    requires b.last == if a.last.None? || !AtMost(d.time, a.last.value) then Some(d.time) else a.last
    ensures Spans(group + [d], b)
  {
    assert d in group + [d];
    forall e | e in group ensures e in group + [d] {
    }
    AtMostTotal(d.time, d.time);
    if a.first.Some? {
      AtMostTotal(a.first.value, d.time);
      AtMostTotal(d.time, a.last.value);
    }
    forall e | e in group + [d] && e.time != "" ensures AtMost(b.first.value, e.time) && AtMost(e.time, b.last.value) {
      if e in group {
        if b.first.value == d.time { AtMostChains(d.time, a.first.value, e.time); }
        if b.last.value == d.time { AtMostChains(e.time, a.last.value, d.time); }
      }
    }
  }

  /** The counts, sums, sets and times of the group with one more edge. */
  method Sum(a: Summary, d: Edge, ghost group: seq<Edge>) returns (b: Summary)
    requires Summed(group, a)
    ensures Summed(group + [d], b)
  {
    b := Tally(a, d, group);
    b := Collect(b, d, group);
    b := Least(b, d, group);
    b := Stretch(b, d, group);
  }

  lemma LatestMoves(group: seq<Edge>, d: Edge, i: nat)
    requires IsLatest(group, i) && AtMost(group[i].time, d.time)
    ensures IsLatest(group + [d], |group|)
  {
    forall j | 0 <= j < |group| ensures AtMost(group[j].time, d.time) {
      AtMostChains(group[j].time, group[i].time, d.time);
    }
    AtMostTotal(d.time, d.time);
  }

  lemma LatestStays(group: seq<Edge>, d: Edge, i: nat)
    requires IsLatest(group, i) && !AtMost(group[i].time, d.time)
    ensures IsLatest(group + [d], i)
  {
    AtMostTotal(group[i].time, d.time);
  }

  /** The governance rule: the newest edge wins, and among equals the later one. */
  method Govern(seenAt: Option<string>, g: Governance, d: Edge, ghost group: seq<Edge>)
    returns (seenAt': Option<string>, g': Governance)
    requires Governed(group, seenAt, g)
    ensures Governed(group + [d], seenAt', g')
  {
    AtMostTotal(d.time, d.time);
    if seenAt.None? {
      assert IsLatest(group + [d], 0);
      return Some(d.time), d.governance;
    }
    ghost var i: nat :| IsLatest(group, i) && group[i].time == seenAt.value && group[i].governance == g;
    if AtMost(seenAt.value, d.time) {
      LatestMoves(group, d, i);
      assert (group + [d])[|group|] == d;
      return Some(d.time), d.governance;
    }
    LatestStays(group, d, i);
    assert (group + [d])[i] == group[i];
    return seenAt, g;
  }

  method AddValue(values: set<Id>, value: Option<Id>, ghost group: seq<Edge>, ghost field: Edge -> Option<Id>,
          ghost d: Edge) returns (more: set<Id>)
    requires values == ValuesOf(group, field) && value == field(d)
    ensures more == ValuesOf(group + [d], field)
  {
    more := if value.Some? then values + {value.value} else values;
  }

  method AddSets(s: GovernanceSets, d: Edge, ghost group: seq<Edge>) returns (t: GovernanceSets)
    requires SetsOf(group, s)
    ensures SetsOf(group + [d], t)
  {
    var j := AddValue(s.jurisdictions, d.governance.jurisdiction, group, Jurisdiction, d);
    var c := AddValue(s.accessClasses, d.governance.accessClass, group, AccessClass, d);
    var u := AddValue(s.authorities, d.governance.authority, group, Authority, d);
    t := GovernanceSets(j, c, u);
  }

  method Take(a: Running, d: Edge, ghost group: seq<Edge>) returns (b: Running)
    requires RunningOk(group, a)
    ensures RunningOk(group + [d], b)
  {
    var summary := Sum(a.summary, d, group);
    var seenAt, governance := Govern(a.seenAt, a.governance, d, group);
    var seen := AddSets(a.seen, d, group);
    b := Running(summary, seenAt, governance, seen);
  }

  // ---------------------------------------------------------------- the pass

  lemma GroupStep(edges: seq<Edge>, e: Edge, k: Key)
    ensures GroupOf(edges + [e], k) == GroupOf(edges, k) + if KeyOf(e) == k then [e] else []
  {
    assert (edges + [e])[..|edges|] == edges;
  }

  /** A group has a running summary if and only if it has an edge. */
  ghost predicate EntryOk(edges: seq<Edge>, agg: map<Key, Running>, k: Key) {
    && (k in agg <==> GroupOf(edges, k) != [])
    && (k in agg ==> RunningOk(GroupOf(edges, k), agg[k]))
  }

  /** The dictionary, and its keys in insertion order. */
  ghost predicate TableOk(edges: seq<Edge>, order: seq<Key>, agg: map<Key, Running>) {
    Distinct(order) && (forall k :: k in order <==> k in agg) && forall k :: EntryOk(edges, agg, k)
  }

  lemma EntryStep(edges: seq<Edge>, agg: map<Key, Running>, e: Edge, b: Running, k: Key)
    requires EntryOk(edges, agg, k) && RunningOk(GroupOf(edges, KeyOf(e)) + [e], b)
    ensures EntryOk(edges + [e], agg[KeyOf(e) := b], k)
  {
    GroupStep(edges, e, k);
  }

  method Put(order: seq<Key>, agg: map<Key, Running>, e: Edge, ghost before: seq<Edge>)
    returns (order': seq<Key>, agg': map<Key, Running>)
    requires TableOk(before, order, agg)
    ensures TableOk(before + [e], order', agg')
  {
    var key := KeyOf(e);
    assert EntryOk(before, agg, key);
    var a := if key in agg then agg[key] else NEW;
    order' := if key in agg then order else order + [key];
    var b := Take(a, e, GroupOf(before, key));
    agg' := agg[key := b];
    forall k ensures EntryOk(before + [e], agg', k) {
      EntryStep(before, agg, e, b, k);
    }
  }

  // ---------------------------------------------------------------- the result

  datatype Relevance = HISTORICAL | CURRENT | UNDATED

  const DAY: nat := 86400
  const HISTORICAL_AFTER_DAYS: int := 365

  datatype Line = Line(key: Key, summary: Summary, governance: Governance, mixed: bool, relevance: Relevance,
          ageDays: Option<int>)

  /** The latest parsed time of all edges. */
  ghost predicate IsDefaultReference(edges: seq<Edge>, parse: string -> Option<Time>, r: Option<Time>) {
    && (r.None? <==> forall e | e in edges && e.time != "" :: parse(e.time).None?)
    && (r.Some? ==> exists e :: e in edges && e.time != "" && parse(e.time) == r)
    && (r.Some? ==> forall e | e in edges && e.time != "" && parse(e.time).Some? :: parse(e.time).value <= r.value)
  }

  method DefaultReference(edges: seq<Edge>, parse: string -> Option<Time>) returns (r: Option<Time>)
    ensures IsDefaultReference(edges, parse, r)
  {
    r := None;
    for i := 0 to |edges|
      invariant IsDefaultReference(edges[..i], parse, r)
    {
      var e := edges[i];
      assert edges[..i + 1] == edges[..i] + [e];
      ghost var before := r;
      if e.time != "" && parse(e.time).Some? && (r.None? || parse(e.time).value > r.value) {
        r := parse(e.time);
      }
      forall x | x in edges[..i] ensures x in edges[..i + 1] {
      }
      assert e in edges[..i + 1];
    }
    assert edges[..|edges|] == edges;
  }

  ghost predicate Aged(parse: string -> Option<Time>, reference: Option<Time>, l: Line) {
    var last := if l.summary.last.None? then None else parse(l.summary.last.value);
    if reference.None? || last.None? then l.relevance == UNDATED && l.ageDays == None
    else
      && l.ageDays.Some? && l.ageDays.value * 86400 <= reference.value - last.value < (l.ageDays.value + 1) * 86400
      && l.relevance == if l.ageDays.value > 365 then HISTORICAL else CURRENT
  }

  /** A summary edge tells what its whole group contains. */
  ghost predicate LineOk(edges: seq<Edge>, l: Line) {
    var group := GroupOf(edges, l.key);
    && Summed(group, l.summary)
    && (exists i: nat :: IsLatest(group, i) && group[i].governance == l.governance)
    && (l.mixed <==> Disagree(group))
  }

  lemma MoreThanOne(s: set<Id>)
    ensures |s| > 1 <==> exists x: Id, y: Id :: x in s && y in s && x != y
  {
    if x: Id, y: Id :| x in s && y in s && x != y {
      assert |s - {x} - {y}| == |s| - 2;
    }
    if |s| > 1 {
      var x: Id :| x in s;
      assert |s - {x}| > 0;
      var y: Id :| y in s - {x};
    }
  }

  lemma MixedField(group: seq<Edge>, field: Edge -> Option<Id>)
    ensures |ValuesOf(group, field)| > 1 <==> DisagreeOn(group, field)
  {
    var values := ValuesOf(group, field);
    MoreThanOne(values);
    if d, e :| d in group && e in group && field(d).Some? && field(e).Some? && field(d) != field(e) {
      assert field(d).value in values && field(e).value in values;
    }
    if x: Id, y: Id :| x in values && y in values && x != y {
      var d: Edge :| d in group && field(d) == Some(x);
      var e: Edge :| e in group && field(e) == Some(y);
      assert DisagreeOn(group, field);
    }
  }

  method Finish(k: Key, a: Running, parse: string -> Option<Time>, reference: Option<Time>, ghost edges: seq<Edge>)
    returns (l: Line)
    requires RunningOk(GroupOf(edges, k), a) && GroupOf(edges, k) != []
    ensures l.key == k && LineOk(edges, l) && Aged(parse, reference, l)
  {
    MixedField(GroupOf(edges, k), Jurisdiction);
    MixedField(GroupOf(edges, k), AccessClass);
    MixedField(GroupOf(edges, k), Authority);
    var mixed := |a.seen.jurisdictions| > 1 || |a.seen.accessClasses| > 1 || |a.seen.authorities| > 1;
    var last := if a.summary.last.None? then None else parse(a.summary.last.value);
    if reference.Some? && last.Some? {
      var age := (reference.value - last.value) / DAY;
      return Line(k, a.summary, a.governance, mixed, if age > HISTORICAL_AFTER_DAYS then HISTORICAL else CURRENT, Some(age));
    }
    return Line(k, a.summary, a.governance, mixed, UNDATED, None);
  }

  /** A group's last time is the time of one of the edges. */
  lemma LastIsRecorded(edges: seq<Edge>, k: Key, a: Summary) returns (e: Edge)
    requires Spans(GroupOf(edges, k), a) && a.last.Some?
    ensures e in edges && e.time == a.last.value && e.time != ""
  {
    e :| e in GroupOf(edges, k) && e.time == a.last.value;
    GroupIsPart(edges, k, e);
  }

  lemma {:induction false} GroupIsPart(edges: seq<Edge>, k: Key, e: Edge)
    ensures e in GroupOf(edges, k) <==> e in edges && KeyOf(e) == k
  {
    if edges != [] {
      GroupIsPart(edges[..|edges| - 1], k, e);
      assert edges == edges[..|edges| - 1] + [edges[|edges| - 1]];
    }
  }

  /** By default no dated edge lies after the reference. */
  lemma AgeIsNotNegative(edges: seq<Edge>, parse: string -> Option<Time>, reference: Option<Time>, l: Line)
    requires IsDefaultReference(edges, parse, reference) && LineOk(edges, l) && Aged(parse, reference, l) && l.ageDays.Some?
    ensures l.ageDays.value >= 0
  {
    var e := LastIsRecorded(edges, l.key, l.summary);
    assert parse(e.time).value <= reference.value;
  }

  // ---------------------------------------------------------------- the whole aggregation

  /** The edges whose key is listed. */
  function Covered(edges: seq<Edge>, order: seq<Key>): nat {
    if order == [] then 0 else Covered(edges, order[..|order| - 1]) + |GroupOf(edges, order[|order| - 1])|
  }

  lemma {:induction false} CoveredStep(edges: seq<Edge>, e: Edge, order: seq<Key>)
    requires Distinct(order)
    ensures Covered(edges + [e], order) == Covered(edges, order) + if KeyOf(e) in order then 1 else 0
  {
    if order != [] {
      var init, k := order[..|order| - 1], order[|order| - 1];
      CoveredStep(edges, e, init);
      GroupStep(edges, e, k);
      assert order == init + [k];
    }
  }

  lemma {:induction false} NothingCovered(order: seq<Key>)
    ensures Covered([], order) == 0
  {
    if order != [] { NothingCovered(order[..|order| - 1]); }
  }

  lemma {:induction false} CoveredIsAll(edges: seq<Edge>, order: seq<Key>)
    requires Distinct(order) && forall e | e in edges :: KeyOf(e) in order
    ensures Covered(edges, order) == |edges|
  {
    if edges == [] {
      NothingCovered(order);
    } else {
      var init, e := edges[..|edges| - 1], edges[|edges| - 1];
      assert edges == init + [e];
      CoveredIsAll(init, order);
      CoveredStep(init, e, order);
    }
  }

  function Counted(lines: seq<Line>): nat {
    if lines == [] then 0 else Counted(lines[..|lines| - 1]) + lines[|lines| - 1].summary.count
  }

  /** The lines of distinct keys count every edge once. */
  lemma {:induction false} CountsAdd(edges: seq<Edge>, lines: seq<Line>, order: seq<Key>)
    requires |lines| == |order| && forall i | 0 <= i < |lines| :: lines[i].key == order[i] && LineOk(edges, lines[i])
    ensures Counted(lines) == Covered(edges, order)
  {
    if lines != [] {
      CountsAdd(edges, lines[..|lines| - 1], order[..|order| - 1]);
      assert LineOk(edges, lines[|lines| - 1]);
    }
  }

  method Group(edges: seq<Edge>) returns (order: seq<Key>, agg: map<Key, Running>)
    ensures TableOk(edges, order, agg)
  {
    order, agg := [], map[];
    for i := 0 to |edges|
      invariant TableOk(edges[..i], order, agg)
    {
      assert edges[..i + 1] == edges[..i] + [edges[i]];
      order, agg := Put(order, agg, edges[i], edges[..i]);
    }
    assert edges[..|edges|] == edges;
  }

  /** What `aggregate` promises of its edges. */
  ghost predicate IsAggregate(edges: seq<Edge>, parse: string -> Option<Time>, reference: Option<Time>,
          lines: seq<Line>)
  {
    && (forall i, j | 0 <= i < j < |lines| :: lines[i].key != lines[j].key)
    && (forall e | e in edges :: exists i :: 0 <= i < |lines| && lines[i].key == Key(e.source, e.target, e.rel))
    && (forall i | 0 <= i < |lines| :: LineOk(edges, lines[i]) && Aged(parse, reference, lines[i]))
    && (forall i | 0 <= i < |lines| :: IsGroup(edges, lines[i].key, GroupOf(edges, lines[i].key)))
    && Counted(lines) == |edges|
  }

  lemma OrderCovers(edges: seq<Edge>, order: seq<Key>, agg: map<Key, Running>, e: Edge)
    requires TableOk(edges, order, agg) && e in edges
    ensures KeyOf(e) in order
  {
    GroupIsPart(edges, KeyOf(e), e);
    assert EntryOk(edges, agg, KeyOf(e));
  }

  method Lines(edges: seq<Edge>, order: seq<Key>, agg: map<Key, Running>, parse: string -> Option<Time>,
          reference: Option<Time>) returns (lines: seq<Line>)
    requires TableOk(edges, order, agg)
    ensures |lines| == |order|
    ensures forall i | 0 <= i < |lines| :: lines[i].key == order[i] && LineOk(edges, lines[i]) && Aged(parse, reference, lines[i])
  {
    lines := [];
    for i := 0 to |order|
      invariant |lines| == i
      invariant forall j | 0 <= j < i :: lines[j].key == order[j] && LineOk(edges, lines[j]) && Aged(parse, reference, lines[j])
    {
      assert order[i] in agg && EntryOk(edges, agg, order[i]);
      var l := Finish(order[i], agg[order[i]], parse, reference, edges);
      lines := lines + [l];
    }
  }

  /**
   `aggregate`: one line for every key that occurs and no other, each exact for its group, with counts that add up to the
   number of edges. Without a reference of the caller's own no age is negative.
  */
  method AggregateEdges(edges: seq<Edge>, parse: string -> Option<Time>, asked: Option<Time>)
    returns (lines: seq<Line>, reference: Option<Time>)
    ensures asked.Some? ==> reference == asked
    ensures asked.None? ==> IsDefaultReference(edges, parse, reference)
    ensures IsAggregate(edges, parse, reference, lines)
    ensures asked.None? ==> forall i | 0 <= i < |lines| && lines[i].ageDays.Some? :: lines[i].ageDays.value >= 0
  {
    reference := asked;
    if asked.None? {
      reference := DefaultReference(edges, parse);
    }
    var order, agg := Group(edges);
    lines := Lines(edges, order, agg, parse, reference);
    forall e | e in edges ensures KeyOf(e) in order {
      OrderCovers(edges, order, agg, e);
    }
    forall i | 0 <= i < |lines| ensures IsGroup(edges, lines[i].key, GroupOf(edges, lines[i].key)) {
      var at := GroupStands(edges, lines[i].key);
    }
    CoveredIsAll(edges, order);
    CountsAdd(edges, lines, order);
    if asked.None? {
      forall i | 0 <= i < |lines| && lines[i].ageDays.Some? ensures lines[i].ageDays.value >= 0 {
        AgeIsNotNegative(edges, parse, reference, lines[i]);
      }
    }
  }
}
