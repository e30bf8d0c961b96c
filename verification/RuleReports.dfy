/**
 `rule_candidates` as a whole: edges are grouped by caller and callee or by receiving account, and each group is put
 through its window rule. The order in which reports come out is not modelled.
*/
module RuleReports {
  import opened Common
  import opened Windows
  import Sorting

  datatype Rel = CALLED | TRANSFERRED_TO | OtherRel(name: string)

  /** An edge with its parsed time, if it has one. */
  datatype Edge = Edge(source: Id, target: Id, rel: Rel, time: Option<Time>)

  const HOUR: nat := 3600
  const DAY: nat := 86400

  // ---------------------------------------------------------------- groups

  predicate IsCall(e: Edge, u: Id, v: Id) { e.rel == CALLED && e.time.Some? && e.source == u && e.target == v }

  predicate IsTransfer(e: Edge, v: Id) { e.rel == TRANSFERRED_TO && e.time.Some? && e.target == v }

  /** The times of all dated calls from `u` to `v`. */
  function CallTimes(edges: seq<Edge>, u: Id, v: Id): seq<Time> {
    if edges == [] then []
    else
      var before, e := CallTimes(edges[..|edges| - 1], u, v), edges[|edges| - 1];
      if IsCall(e, u, v) then before + [e.time.value] else before
  }

  /** All dated transfers to `v`. */
  function Transfers(edges: seq<Edge>, v: Id): seq<Transfer> {
    if edges == [] then []
    else
      var before, e := Transfers(edges[..|edges| - 1], v), edges[|edges| - 1];
      if IsTransfer(e, v) then before + [Transfer(e.time.value, e.source)] else before
  }

  predicate CallAt(edges: seq<Edge>, u: Id, v: Id, j: nat) {
    j < |edges| && edges[j].rel == CALLED && edges[j].source == u && edges[j].target == v && edges[j].time != None
  }

  predicate TransferAt(edges: seq<Edge>, v: Id, j: nat) {
    j < |edges| && edges[j].rel == TRANSFERRED_TO && edges[j].target == v && edges[j].time != None
  }

  predicate TimeAt(edges: seq<Edge>, j: nat, t: Time) { j < |edges| && edges[j].time == Some(t) }

  /** `at` are the places of the dated calls from `u` to `v`, in order, and `times` when they were made. */
  ghost predicate CallsStandAt(edges: seq<Edge>, u: Id, v: Id, times: seq<Time>, at: seq<nat>) {
    && Sorting.Increasing(at) && |at| == |times|
    && (forall j: nat :: j in at <==> CallAt(edges, u, v, j))
    && (forall i | 0 <= i < |at| :: TimeAt(edges, at[i], times[i]))
  }

  /** The same for the dated transfers to `v` with their sources. */
  ghost predicate TransfersStandAt(edges: seq<Edge>, v: Id, items: seq<Transfer>, at: seq<nat>) {
    && Sorting.Increasing(at) && |at| == |items|
    && (forall j: nat :: j in at <==> TransferAt(edges, v, j))
    && (forall i | 0 <= i < |at| :: TimeAt(edges, at[i], items[i].time) && edges[at[i]].source == items[i].source)
  }

  ghost predicate AreCalls(edges: seq<Edge>, u: Id, v: Id, times: seq<Time>) { exists at :: CallsStandAt(edges, u, v, times, at) }

  ghost predicate AreTransfers(edges: seq<Edge>, v: Id, items: seq<Transfer>) { exists at :: TransfersStandAt(edges, v, items, at) }

  lemma CallsStep(edges: seq<Edge>, e: Edge, u: Id, v: Id, times: seq<Time>, at: seq<nat>)
    requires CallsStandAt(edges, u, v, times, at)
    ensures if IsCall(e, u, v) then CallsStandAt(edges + [e], u, v, times + [e.time.value], at + [|edges|])
            else CallsStandAt(edges + [e], u, v, times, at)
  {
    var more := edges + [e];
    forall j: nat ensures CallAt(more, u, v, j) <==> CallAt(edges, u, v, j) || (j == |edges| && IsCall(e, u, v)) {
    }
    forall i | 0 <= i < |at| ensures at[i] < |edges| && TimeAt(more, at[i], times[i]) {
      assert at[i] in at && TimeAt(edges, at[i], times[i]);
    }
    if IsCall(e, u, v) {
      assert TimeAt(more, |edges|, e.time.value);
    }
  }

  lemma {:induction false} CallsStand(edges: seq<Edge>, u: Id, v: Id) returns (at: seq<nat>)
    ensures CallsStandAt(edges, u, v, CallTimes(edges, u, v), at)
  {
    at := [];
    if edges != [] {
      var init, e := edges[..|edges| - 1], edges[|edges| - 1];
      at := CallsStand(init, u, v);
      CallsStep(init, e, u, v, CallTimes(init, u, v), at);
      assert edges == init + [e];
      at := if IsCall(e, u, v) then at + [|init|] else at;
    }
  }

  lemma TransfersStep(edges: seq<Edge>, e: Edge, v: Id, items: seq<Transfer>, at: seq<nat>)
    requires TransfersStandAt(edges, v, items, at)
    ensures if IsTransfer(e, v) then TransfersStandAt(edges + [e], v, items + [Transfer(e.time.value, e.source)], at + [|edges|])
            else TransfersStandAt(edges + [e], v, items, at)
  {
    var more := edges + [e];
    forall j: nat ensures TransferAt(more, v, j) <==> TransferAt(edges, v, j) || (j == |edges| && IsTransfer(e, v)) {
    }
    forall i | 0 <= i < |at|
      ensures at[i] < |edges| && TimeAt(more, at[i], items[i].time) && more[at[i]].source == items[i].source
    {
      assert at[i] in at && TimeAt(edges, at[i], items[i].time);
    }
    if IsTransfer(e, v) {
      assert TimeAt(more, |edges|, e.time.value);
    }
  }

  lemma {:induction false} TransfersStand(edges: seq<Edge>, v: Id) returns (at: seq<nat>)
    ensures TransfersStandAt(edges, v, Transfers(edges, v), at)
  {
    at := [];
    if edges != [] {
      var init, e := edges[..|edges| - 1], edges[|edges| - 1];
      at := TransfersStand(init, v);
      TransfersStep(init, e, v, Transfers(init, v), at);
      assert edges == init + [e];
      at := if IsTransfer(e, v) then at + [|init|] else at;
    }
  }

  /** A dictionary holds exactly the groups that have an entry. */
  ghost predicate HoldsCalls(pairTimes: map<(Id, Id), seq<Time>>, edges: seq<Edge>) {
    forall u: Id, v: Id :: CallTimes(edges, u, v) == if (u, v) in pairTimes then pairTimes[(u, v)] else []
  }

  ghost predicate HoldsTransfers(fanin: map<Id, seq<Transfer>>, edges: seq<Edge>) {
    forall v :: Transfers(edges, v) == if v in fanin then fanin[v] else []
  }

  method Group(edges: seq<Edge>) returns (pairTimes: map<(Id, Id), seq<Time>>, fanin: map<Id, seq<Transfer>>)
    ensures HoldsCalls(pairTimes, edges) && HoldsTransfers(fanin, edges)
  {
    pairTimes, fanin := map[], map[];
    for i := 0 to |edges|
      invariant HoldsCalls(pairTimes, edges[..i]) && HoldsTransfers(fanin, edges[..i])
    {
      var e := edges[i];
      assert edges[..i + 1] == edges[..i] + [e];
      if e.time.Some? {
        if e.rel == CALLED {
          var key := (e.source, e.target);
          pairTimes := pairTimes[key := (if key in pairTimes then pairTimes[key] else []) + [e.time.value]];
        } else if e.rel == TRANSFERRED_TO {
          fanin := fanin[e.target := (if e.target in fanin then fanin[e.target] else []) + [Transfer(e.time.value, e.source)]];
        }
      }
    }
    assert edges[..|edges|] == edges;
  }

  // ---------------------------------------------------------------- reports

  datatype Subject = Calls(u: Id, v: Id) | Into(v: Id)

  datatype Report = BurstOf(u: Id, v: Id, burst: Burst) | FanInOf(v: Id, fanIn: FanIn) {
    function Of(): Subject {
      match this
      case BurstOf(u, v, _) => Calls(u, v)
      case FanInOf(v, _) => Into(v)
    }
  }

  predicate OnePerSubject(out: seq<Report>) {
    forall i, j | 0 <= i < j < |out| :: out[i].Of() != out[j].Of()
  }

  predicate Reported(out: seq<Report>, s: Subject) {
    exists i :: 0 <= i < |out| && out[i].Of() == s
  }

  ghost predicate Accurate(edges: seq<Edge>, burstN: int, burstWindow: Time, faninK: int, faninWindow: Time, r: Report)
  {
    if r.BurstOf? then BurstOk(edges, burstN, burstWindow, r) else FanInOk(edges, faninK, faninWindow, r)
  }

  /** No window over the group reaches the threshold. */
  ghost predicate QuietPair(edges: seq<Edge>, u: Id, v: Id, n: int, width: Time) {
    forall t | t in CallTimes(edges, u, v) :: |InWindow(CallTimes(edges, u, v), t, width)| < n
  }

  ghost predicate QuietAccount(edges: seq<Edge>, v: Id, k: int, width: Time) {
    forall x | x in Transfers(edges, v) :: |SourcesIn(Transfers(edges, v), x.time, width)| < k
  }

  ghost predicate BurstOk(edges: seq<Edge>, n: int, width: Time, r: Report) {
    r.BurstOf? && BurstReport(CallTimes(edges, r.u, r.v), n, width, r.burst)
  }

  ghost predicate FanInOk(edges: seq<Edge>, k: int, width: Time, r: Report) {
    r.FanInOf? && FanInReport(Transfers(edges, r.v), k, width, r.fanIn)
  }

  method BurstReports(ghost edges: seq<Edge>, pairTimes: map<(Id, Id), seq<Time>>, burstN: int, width: Time)
    returns (out: seq<Report>)
    requires HoldsCalls(pairTimes, edges) && width >= 0
    ensures OnePerSubject(out) && forall i | 0 <= i < |out| :: BurstOk(edges, burstN, width, out[i])
    ensures forall u: Id, v: Id :: Reported(out, Calls(u, v)) || QuietPair(edges, u, v, burstN, width)
  {
    out := [];
    var left := pairTimes.Keys;
    while left != {}
      invariant left <= pairTimes.Keys
      invariant OnePerSubject(out)
      invariant forall i | 0 <= i < |out| :: BurstOk(edges, burstN, width, out[i]) && (out[i].u, out[i].v) !in left
      invariant forall u: Id, v: Id :: (u, v) in left || Reported(out, Calls(u, v))
                  || QuietPair(edges, u, v, burstN, width)
      decreases left
    {
      var key :| key in left;
      var r := DetectBurst(pairTimes[key], burstN, width);
      assert r.None? ==> QuietPair(edges, key.0, key.1, burstN, width);
      left := left - {key};
      if r.Some? {
        out := Append(out, BurstOf(key.0, key.1, r.value));
      }
    }
  }

  method Append(out: seq<Report>, r: Report) returns (more: seq<Report>)
    requires OnePerSubject(out) && !Reported(out, r.Of())
    ensures more == out + [r] && OnePerSubject(more)
    ensures forall s :: Reported(more, s) <==> Reported(out, s) || s == r.Of()
  {
    more := out + [r];
    assert more[|out|] == r;
    forall s | Reported(out, s) ensures Reported(more, s) {
      var i :| 0 <= i < |out| && out[i].Of() == s;
      assert more[i] == out[i];
    }
  }

  /** One account. */
  method ReportAccount(ghost edges: seq<Edge>, v: Id, items: seq<Transfer>, faninK: int, width: Time) returns (r: Option<Report>)
    requires items == Transfers(edges, v) && width >= 0
    ensures r.Some? ==> FanInOk(edges, faninK, width, r.value) && r.value.v == v
    ensures r.None? ==> QuietAccount(edges, v, faninK, width)
  {
    var found := DetectFanIn(items, faninK, width);
    return if found.Some? then Some(FanInOf(v, found.value)) else None;
  }

  method FanInReports(ghost edges: seq<Edge>, fanin: map<Id, seq<Transfer>>, faninK: int, width: Time)
    returns (out: seq<Report>)
    requires HoldsTransfers(fanin, edges) && width >= 0
    ensures OnePerSubject(out) && forall i | 0 <= i < |out| :: FanInOk(edges, faninK, width, out[i])
    ensures forall v: Id :: Reported(out, Into(v)) || QuietAccount(edges, v, faninK, width)
  {
    out := [];
    var left := fanin.Keys;
    while left != {}
      invariant left <= fanin.Keys
      invariant OnePerSubject(out)
      invariant forall i | 0 <= i < |out| :: FanInOk(edges, faninK, width, out[i]) && out[i].v !in left
      invariant forall v: Id :: v in left || Reported(out, Into(v))
                  || QuietAccount(edges, v, faninK, width)
      decreases left
    {
      var v :| v in left;
      var r := ReportAccount(edges, v, fanin[v], faninK, width);
      left := left - {v};
      if r.Some? {
        out := Append(out, r.value);
      }
    }
  }

  lemma Joined(a: seq<Report>, b: seq<Report>)
    requires OnePerSubject(a) && OnePerSubject(b)
    requires (forall i | 0 <= i < |a| :: a[i].BurstOf?) && (forall i | 0 <= i < |b| :: b[i].FanInOf?)
    ensures OnePerSubject(a + b)
    ensures forall s :: Reported(a, s) || Reported(b, s) ==> Reported(a + b, s)
  {
    forall s | Reported(a, s) ensures Reported(a + b, s) {
      var i :| 0 <= i < |a| && a[i].Of() == s;
      assert (a + b)[i] == a[i];
    }
    forall s | Reported(b, s) ensures Reported(a + b, s) {
      var i :| 0 <= i < |b| && b[i].Of() == s;
      assert (a + b)[|a| + i] == b[i];
    }
  }

  /** A pair is reported if and only if enough of its calls fit one window. */
  lemma BurstReportedIffHappened(edges: seq<Edge>, n: int, width: Time, out: seq<Report>, u: Id, v: Id)
    requires width >= 0
    requires forall i | 0 <= i < |out| :: out[i].BurstOf? ==> BurstOk(edges, n, width, out[i])
    requires Reported(out, Calls(u, v)) || QuietPair(edges, u, v, n, width)
    ensures Reported(out, Calls(u, v)) <==> BurstHappened(CallTimes(edges, u, v), n, width)
  {
    var times := CallTimes(edges, u, v);
    BurstIffFullWindow(times, n, width);
    if Reported(out, Calls(u, v)) {
      var i :| 0 <= i < |out| && out[i].Of() == Calls(u, v);
      var b := out[i].burst;
      assert BurstOk(edges, n, width, out[i]);
      assert b.start in times && |InWindow(times, b.start, width)| >= n;
    } else {
      assert QuietPair(edges, u, v, n, width);
      forall t | t in times ensures |InWindow(times, t, width)| < n {
      }
    }
  }

  /** An account is reported if and only if transfers from enough distinct sources fit one window. */
  lemma FanInReportedIffHappened(edges: seq<Edge>, k: int, width: Time, out: seq<Report>, v: Id)
    requires width >= 0
    requires forall i | 0 <= i < |out| :: out[i].FanInOf? ==> FanInOk(edges, k, width, out[i])
    requires Reported(out, Into(v)) || QuietAccount(edges, v, k, width)
    ensures Reported(out, Into(v)) <==> FanInHappened(Transfers(edges, v), k, width)
  {
    var items := Transfers(edges, v);
    FanInIffFullWindow(items, k, width);
    if Reported(out, Into(v)) {
      var i :| 0 <= i < |out| && out[i].Of() == Into(v);
      assert FanInOk(edges, k, width, out[i]);
      var x :| x in items && x.time == out[i].fanIn.start;
      assert |SourcesIn(items, x.time, width)| >= k;
    } else {
      assert QuietAccount(edges, v, k, width);
    }
  }

  /**
   All reports: each is accurate, no subject has two, and a subject is reported if and only if its calls contain a burst,
   or its incoming transfers a fan-in.
  */
  method RuleCandidates(edges: seq<Edge>, burstN: int := 8, burstWindowH: nat := 2, faninK: int := 4,
          faninDays: nat := 3) returns (out: seq<Report>)
    ensures OnePerSubject(out)
    ensures forall i | 0 <= i < |out| :: Accurate(edges, burstN, burstWindowH * HOUR, faninK, faninDays * DAY, out[i])
    ensures forall u: Id, v: Id :: Reported(out, Calls(u, v)) <==> BurstHappened(CallTimes(edges, u, v), burstN, burstWindowH * 3600)
    ensures forall v: Id :: Reported(out, Into(v)) <==> FanInHappened(Transfers(edges, v), faninK, faninDays * 86400)
    ensures forall u: Id, v: Id :: AreCalls(edges, u, v, CallTimes(edges, u, v))
    ensures forall v: Id :: AreTransfers(edges, v, Transfers(edges, v))
  {
    forall u: Id, v: Id ensures AreCalls(edges, u, v, CallTimes(edges, u, v)) {
      var at := CallsStand(edges, u, v);
    }
    forall v: Id ensures AreTransfers(edges, v, Transfers(edges, v)) {
      var at := TransfersStand(edges, v);
    }
    var pairTimes, fanin := Group(edges);
    var bursts := BurstReports(edges, pairTimes, burstN, burstWindowH * HOUR);
    var fanIns := FanInReports(edges, fanin, faninK, faninDays * DAY);
    Joined(bursts, fanIns);
    out := bursts + fanIns;
    forall u: Id, v: Id ensures Reported(out, Calls(u, v)) <==> BurstHappened(CallTimes(edges, u, v), burstN, burstWindowH * HOUR) {
      BurstReportedIffHappened(edges, burstN, burstWindowH * HOUR, out, u, v);
    }
    forall v: Id ensures Reported(out, Into(v)) <==> FanInHappened(Transfers(edges, v), faninK, faninDays * DAY) {
      FanInReportedIffHappened(edges, faninK, faninDays * DAY, out, v);
    }
  }
}
