/**
 Bounded exploration around a node (`bounded_subgraph` of `graph.py`): a breadth-first search with a hop limit, a node
 limit and a fan-out cap at supernodes, and a flag that says whether anything was cut off.
*/
module Bounded {
  import opened Common

  type Id = nat

  /** The undirected view of the projection: neighbours of every node, itself included for a self-loop. */
  type Graph = map<Id, set<Id>>

  predicate IsGraph(g: Graph) {
    forall n, m | n in g && m in g[n] :: m in g && n in g[m]
  }

  /** Deployment settings. */
  datatype Config = Config(maxHops: int, maxNodes: int, supernodeDegree: nat)

  function Max(a: int, b: int): int { if a >= b then a else b }
  function Min(a: int, b: int): int { if a <= b then a else b }

  function HopLimit(hops: int, c: Config): nat { Max(1, Min(hops, c.maxHops)) }
  function NodeLimit(maxNodes: int, c: Config): nat { Max(5, Min(maxNodes, c.maxNodes)) }

  /** What is asked for is what is given, unless the deployment allows less or less than 1 hop or 5 nodes are left. */
  lemma LimitsAreClamped(hops: int, maxNodes: int, c: Config)
    ensures 1 <= hops <= c.maxHops ==> HopLimit(hops, c) == hops
    ensures 1 <= c.maxHops < hops ==> HopLimit(hops, c) == c.maxHops
    ensures hops < 1 || c.maxHops < 1 ==> HopLimit(hops, c) == 1
    ensures 5 <= maxNodes <= c.maxNodes ==> NodeLimit(maxNodes, c) == maxNodes
    ensures 5 <= c.maxNodes < maxNodes ==> NodeLimit(maxNodes, c) == c.maxNodes
    ensures maxNodes < 5 || c.maxNodes < 5 ==> NodeLimit(maxNodes, c) == 5
  {
  }

  // ---------------------------------------------------------------- distance

  /** Neighbours of `from` that lie in `within`. */
  function Around(g: Graph, within: set<Id>, from: set<Id>): set<Id> {
    set n, m | n in from && n in g && m in g[n] && m in within :: m
  }

  /** Nodes reached from `c` by at most `k` edges through nodes of `within`. */
  function Near(g: Graph, within: set<Id>, c: Id, k: nat): set<Id> {
    if k == 0 then {c} * within
    else Near(g, within, c, k - 1) + Around(g, within, Near(g, within, c, k - 1))
  }

  /** The undirected ball of radius `k`. */
  function Ball(g: Graph, c: Id, k: nat): set<Id> { Near(g, g.Keys, c, k) }

  lemma {:induction false} NearGrows(g: Graph, within: set<Id>, c: Id, j: nat, k: nat)
    requires j <= k
    ensures Near(g, within, c, j) <= Near(g, within, c, k)
  {
    if j < k {
      NearGrows(g, within, c, j, k - 1);
    }
  }

  lemma {:induction false} NearWithin(g: Graph, within: set<Id>, c: Id, k: nat)
    ensures Near(g, within, c, k) <= within
  {
    if k > 0 {
      NearWithin(g, within, c, k - 1);
    }
  }

  // ---------------------------------------------------------------- what may be cut off

  /** A node the search expands has as many neighbours as the cap. */
  ghost predicate MeetsSupernode(g: Graph, c: Id, hops: nat, cap: nat)
    requires hops >= 1
  {
    exists n: Id :: n in Ball(g, c, hops - 1) && n in g && |g[n]| >= cap
  }

  ghost predicate Exceeds(g: Graph, c: Id, hops: nat, limit: nat, cap: nat)
    requires hops >= 1
  {
    MeetsSupernode(g, c, hops, cap) || |Ball(g, c, hops)| > limit
  }

  // ---------------------------------------------------------------- the search

  /** All distinct neighbours of a node by falling degree. */
  ghost predicate IsRanking(g: Graph, n: Id, ranked: seq<Id>)
    requires n in g
  {
    && |ranked| == |g[n]| && Distinct(ranked) && (forall m :: m in ranked <==> m in g[n])
    && forall i, j | 0 <= i < j < |ranked| :: NoNarrower(g, ranked[i], ranked[j])
  }

  predicate NoNarrower(g: Graph, x: Id, y: Id) { x in g && y in g && |g[x]| >= |g[y]| }

  /** The neighbours in order, whatever order ties come in. */
  method Ranked(g: Graph, n: Id) returns (ranked: seq<Id>)
    requires IsGraph(g) && n in g
    ensures IsRanking(g, n, ranked)
  {
    ranked := [];
    var left := g[n];
    while left != {}
      invariant left <= g[n] && |ranked| + |left| == |g[n]| && Distinct(ranked)
      invariant forall m :: m in ranked <==> m in g[n] && m !in left
      invariant forall i, j | 0 <= i < j < |ranked| :: NoNarrower(g, ranked[i], ranked[j])
      invariant forall i, m | 0 <= i < |ranked| && m in left :: NoNarrower(g, ranked[i], m)
      decreases left
    {
      var m := Widest(g, left);
      ranked, left := ranked + [m], left - {m};
    }
  }

  method Widest(g: Graph, nodes: set<Id>) returns (widest: Id)
    requires nodes != {} && nodes <= g.Keys
    ensures widest in nodes && forall m | m in nodes :: |g[widest]| >= |g[m]|
  {
    widest :| widest in nodes;
    var left := nodes - {widest};
    while left != {}
      invariant left <= nodes && widest in nodes
      invariant forall m | m in nodes :: m in left || |g[widest]| >= |g[m]|
      decreases left
    {
      var m: Id :| m in left;
      widest, left := if |g[m]| > |g[widest]| then m else widest, left - {m};
    }
  }

  // ---------------------------------------------------------------- how kept nodes were reached

  /** For every kept node the number of edges of the path it was found on and the node before it on that path. */
  datatype Trail = Trail(hop: map<Id, nat>, via: map<Id, Id>)

  /** `m` was reached over an edge from a kept node one step closer to the centre. */
  ghost predicate Reached(g: Graph, keep: set<Id>, t: Trail, m: Id) {
    && m in t.via && m in t.hop && t.via[m] in keep && t.via[m] in t.hop
    && t.via[m] in g && m in g[t.via[m]] && t.hop[m] == t.hop[t.via[m]] + 1
  }

  ghost predicate TrailOk(g: Graph, c: Id, keep: set<Id>, t: Trail, d: nat) {
    && t.hop.Keys == keep && c in keep && t.hop[c] == 0
    && (forall m | m in keep :: t.hop[m] <= d)
    && (forall m {:trigger Reached(g, keep, t, m)} | m in keep && m != c :: Reached(g, keep, t, m))
  }

  lemma AroundIntro(g: Graph, within: set<Id>, from: set<Id>, n: Id, m: Id)
    requires n in from && n in g && m in g[n] && m in within
    ensures m in Around(g, within, from)
  {
  }

  /** Recorded paths run through kept nodes, so they bound the distance inside the kept set. */
  lemma {:induction false} TrailIsNear(g: Graph, c: Id, keep: set<Id>, t: Trail, d: nat, m: Id)
    requires TrailOk(g, c, keep, t, d) && m in keep
    ensures m in Near(g, keep, c, t.hop[m])
    decreases t.hop[m]
  {
    if m != c {
      assert Reached(g, keep, t, m);
      TrailIsNear(g, c, keep, t, d, t.via[m]);
      AroundIntro(g, keep, Near(g, keep, c, t.hop[m] - 1), t.via[m], m);
    }
  }

  lemma KeptIsNear(g: Graph, c: Id, keep: set<Id>, t: Trail, d: nat)
    requires TrailOk(g, c, keep, t, d)
    ensures keep <= Near(g, keep, c, d)
  {
    forall m | m in keep ensures m in Near(g, keep, c, d) {
      TrailIsNear(g, c, keep, t, d, m);
      NearGrows(g, keep, c, t.hop[m], d);
    }
  }

  // ---------------------------------------------------------------- what is kept of a node's neighbours

  /** As many of the most connected neighbours as the cap lets through. */
  ghost predicate IsTop(g: Graph, n: Id, cap: nat, top: set<Id>)
    requires n in g
  {
    top <= g[n] && |top| == Min(|g[n]|, cap) && forall x, y | x in top && y in g[n] - top :: NoNarrower(g, x, y)
  }

  /** A node's most connected neighbours are kept, or there is no room left. */
  ghost predicate TopKept(g: Graph, n: Id, cap: nat, limit: nat, keep: set<Id>) {
    n in g && exists top :: IsTop(g, n, cap, top) && (top <= keep || |keep| == limit)
  }

  lemma TopStaysKept(g: Graph, n: Id, cap: nat, limit: nat, keep: set<Id>, more: set<Id>)
    requires TopKept(g, n, cap, limit, keep) && keep <= more && |more| <= limit
    ensures TopKept(g, n, cap, limit, more)
  {
    var top :| IsTop(g, n, cap, top) && (top <= keep || |keep| == limit);
    Subset(keep, more);
  }

  /** The first `i` of a ranking are added, which are all that the cap lets through, or the limit is met before the next. */
  ghost predicate Fills(g: Graph, n: Id, cap: nat, limit: nat, keep0: set<Id>, keep: set<Id>, ranked: seq<Id>, i: nat)
    requires n in g
  {
    && IsRanking(g, n, ranked) && i <= Min(|ranked|, cap) && keep == keep0 + AsSet(ranked[..i])
    && (i < Min(|ranked|, cap) ==> |keep| == limit && ranked[i] !in keep)
  }

  lemma PrefixSize(s: seq<Id>, i: nat)
    requires i <= |s| && Distinct(s)
    ensures |AsSet(s[..i])| == i
  {
    DistinctCount(s[..i]);
  }

  lemma PrefixHas(s: seq<Id>, k: nat)
    requires k <= |s|
    ensures forall j | 0 <= j < k :: s[j] in AsSet(s[..k])
  {
    forall j | 0 <= j < k ensures s[j] in AsSet(s[..k]) {
      assert s[..k][j] == s[j];
    }
  }

  lemma PrefixIsTop(g: Graph, n: Id, cap: nat, ranked: seq<Id>)
    requires n in g && IsRanking(g, n, ranked)
    ensures IsTop(g, n, cap, AsSet(ranked[..Min(|ranked|, cap)]))
  {
    var k: nat := Min(|ranked|, cap);
    assert AsSet(ranked) == g[n];
    PrefixSize(ranked, k);
    PrefixHas(ranked, k);
    forall x, y | x in AsSet(ranked[..k]) && y in g[n] - AsSet(ranked[..k]) ensures NoNarrower(g, x, y) {
      var i :| 0 <= i < k && ranked[i] == x;
      var j :| 0 <= j < |ranked| && ranked[j] == y;
      assert j >= k;
    }
  }

  lemma FilledIsTop(g: Graph, n: Id, cap: nat, limit: nat, keep0: set<Id>, keep: set<Id>, ranked: seq<Id>, i: nat)
    requires n in g && Fills(g, n, cap, limit, keep0, keep, ranked, i)
    ensures TopKept(g, n, cap, limit, keep)
  {
    PrefixIsTop(g, n, cap, ranked);
  }

  // ---------------------------------------------------------------- one node, one round

  /** The nodes kept so far, with `more` the part of them kept in the current round. */
  ghost predicate KeepOk(g: Graph, c: Id, limit: nat, d: nat, reach: set<Id>, before: set<Id>, keep: set<Id>,
          nxt: seq<Id>, t: Trail)
  {
    && TrailOk(g, c, keep, t, d + 1) && before <= keep <= reach && |keep| <= limit
    && (forall n | n in before :: t.hop[n] <= d)
    && (forall n :: n in nxt <==> n in keep && n !in before)
    && (forall n | n in nxt :: t.hop[n] == d + 1)
  }

  lemma TrailGrows(g: Graph, c: Id, keep: set<Id>, t: Trail, d: nat, n: Id, m: Id)
    requires TrailOk(g, c, keep, t, d) && n in keep && n in g && m in g[n] && m !in keep && t.hop[n] < d
    ensures TrailOk(g, c, keep + {m}, Trail(t.hop[m := t.hop[n] + 1], t.via[m := n]), d)
  {
    var u := Trail(t.hop[m := t.hop[n] + 1], t.via[m := n]);
    forall k | k in keep + {m} && k != c ensures Reached(g, keep + {m}, u, k) {
      if k != m {
        assert Reached(g, keep, t, k);
      }
    }
  }

  lemma KeepOneMore(g: Graph, c: Id, limit: nat, d: nat, reach: set<Id>, before: set<Id>, keep: set<Id>, nxt: seq<Id>,
          t: Trail, n: Id, m: Id)
    requires KeepOk(g, c, limit, d, reach, before, keep, nxt, t)
    requires n in before && n in g && m in g[n] && m in reach && m !in keep && |keep| < limit && t.hop[n] == d
    ensures KeepOk(g, c, limit, d, reach, before, keep + {m}, nxt + [m], Trail(t.hop[m := t.hop[n] + 1], t.via[m := n]))
  {
    TrailGrows(g, c, keep, t, d + 1, n, m);
  }

  /** The nodes of a list that are not kept yet, in order. */
  function Unkept(s: seq<Id>, keep: set<Id>): seq<Id> {
    if s == [] then []
    else
      var before, m := Unkept(s[..|s| - 1], keep), s[|s| - 1];
      if m in keep then before else before + [m]
  }

  ghost predicate SameHops(keep: set<Id>, t: Trail, u: Trail) {
    forall k | k in keep :: k in t.hop && k in u.hop && u.hop[k] == t.hop[k]
  }

  /** What the first `i` of `ranked` have added. */
  ghost predicate Listed(keep0: set<Id>, nxt0: seq<Id>, ranked: seq<Id>, i: nat, keep: set<Id>, nxt: seq<Id>) {
    i <= |ranked| && keep == keep0 + AsSet(ranked[..i]) && nxt == nxt0 + Unkept(ranked[..i], keep0)
  }

  lemma ListedStep(keep0: set<Id>, nxt0: seq<Id>, ranked: seq<Id>, i: nat, keep: set<Id>, nxt: seq<Id>)
    requires Listed(keep0, nxt0, ranked, i, keep, nxt) && i < |ranked| && ranked[i] !in ranked[..i]
    ensures if ranked[i] in keep then Listed(keep0, nxt0, ranked, i + 1, keep, nxt)
            else Listed(keep0, nxt0, ranked, i + 1, keep + {ranked[i]}, nxt + [ranked[i]])
  {
    var m, next := ranked[i], ranked[..i + 1];
    assert next == ranked[..i] + [m] && next[..i] == ranked[..i];
    assert AsSet(next) == AsSet(ranked[..i]) + {m};
    assert Unkept(next, keep0) == if m in keep0 then Unkept(ranked[..i], keep0) else Unkept(ranked[..i], keep0) + [m];
  }

  lemma HopsStay(keep0: set<Id>, t0: Trail, t: Trail, n: Id, m: Id)
    requires SameHops(keep0, t0, t) && n in t.hop && m !in keep0
    ensures SameHops(keep0, t0, Trail(t.hop[m := t.hop[n] + 1], t.via[m := n]))
  {
  }

  /** Each neighbour occurs once in a ranking. */
  lemma NextIsNew(g: Graph, n: Id, ranked: seq<Id>, i: nat)
    requires n in g && IsRanking(g, n, ranked) && i < |ranked|
    ensures ranked[i] !in ranked[..i]
  {
  }

  lemma AllListed(g: Graph, n: Id, keep0: set<Id>, nxt0: seq<Id>, ranked: seq<Id>, i: nat, keep: set<Id>, nxt: seq<Id>)
    requires n in g && IsRanking(g, n, ranked) && Listed(keep0, nxt0, ranked, i, keep, nxt)
    ensures i == |ranked| ==> keep == keep0 + g[n]
  {
    if i == |ranked| {
      assert ranked[..i] == ranked;
      assert AsSet(ranked) == g[n];
    }
  }

  ghost predicate ExpandOk(g: Graph, c: Id, limit: nat, d: nat, reach: set<Id>, before: set<Id>, keep0: set<Id>,
          nxt0: seq<Id>, t0: Trail, ranked: seq<Id>, i: nat, keep: set<Id>, nxt: seq<Id>, t: Trail)
  {
    && KeepOk(g, c, limit, d, reach, before, keep, nxt, t) && SameHops(keep0, t0, t)
    && Listed(keep0, nxt0, ranked, i, keep, nxt)
  }

  /** One neighbour `m`, the one at place `i` of the ranking: it is added if it is new and there is room. */
  method LookAt(g: Graph, ghost c: Id, limit: nat, ghost d: nat, ghost reach: set<Id>, ghost before: set<Id>,
          ghost n: Id, ghost keep0: set<Id>, ghost nxt0: seq<Id>, ghost t0: Trail, ghost ranked: seq<Id>, ghost i: nat,
          m: Id, keep1: set<Id>, nxt1: seq<Id>, ghost t1: Trail)
    returns (keep: set<Id>, nxt: seq<Id>, full: bool, ghost t: Trail)
    requires n in before && n in keep0 && n in g && g[n] <= reach && IsRanking(g, n, ranked) && i < |ranked| && m == ranked[i]
    requires ExpandOk(g, c, limit, d, reach, before, keep0, nxt0, t0, ranked, i, keep1, nxt1, t1)
    requires n in t0.hop && t0.hop[n] == d
    ensures ExpandOk(g, c, limit, d, reach, before, keep0, nxt0, t0, ranked, if full then i else i + 1, keep, nxt, t)
    ensures full ==> |keep| == limit < |reach| && m !in keep
  {
    keep, nxt, full, t := keep1, nxt1, false, t1;
    assert m in ranked && n in keep;
    NextIsNew(g, n, ranked, i);
    ListedStep(keep0, nxt0, ranked, i, keep, nxt);
    if m !in keep {
      if |keep| >= limit {
        Subset(keep + {m}, reach);
        full := true;
      } else {
        KeepOneMore(g, c, limit, d, reach, before, keep, nxt, t, n, m);
        HopsStay(keep0, t0, t, n, m);
        t := Trail(t.hop[m := t.hop[n] + 1], t.via[m := n]);
        keep, nxt := keep + {m}, nxt + [m];
      }
    }
  }

  /** The loop over the neighbours that the cap lets through, until the limit is met. */
  method LookAtAll(g: Graph, ghost c: Id, limit: nat, ghost d: nat, ghost reach: set<Id>, ghost before: set<Id>,
          ghost n: Id, ghost ranked: seq<Id>, neighbours: seq<Id>, keep0: set<Id>, nxt0: seq<Id>, ghost t0: Trail)
    returns (keep: set<Id>, nxt: seq<Id>, full: bool, ghost t: Trail, i: nat)
    requires n in before && n in g && g[n] <= reach && IsRanking(g, n, ranked) && neighbours <= ranked
    requires KeepOk(g, c, limit, d, reach, before, keep0, nxt0, t0) && t0.hop[n] == d
    ensures i <= |neighbours| && ExpandOk(g, c, limit, d, reach, before, keep0, nxt0, t0, ranked, i, keep, nxt, t)
    ensures if full then i < |neighbours| && |keep| == limit < |reach| && ranked[i] !in keep else i == |neighbours|
  {
    keep, nxt, full, t, i := keep0, nxt0, false, t0, 0;
    while i < |neighbours|
      invariant i <= |neighbours|
      invariant ExpandOk(g, c, limit, d, reach, before, keep0, nxt0, t0, ranked, i, keep, nxt, t)
    {
      keep, nxt, full, t := LookAt(g, c, limit, d, reach, before, n, keep0, nxt0, t0, ranked, i, neighbours[i], keep, nxt, t);
      if full {
        return;
      }
      i := i + 1;
    }
  }

  /**
   The neighbours of one frontier node, most connected first, up to the cap and the node limit: `ranked` is their order and
   `i` how many of it are kept in the end. `reach` are the nodes that may be kept and `exceeds` says whether the whole search
   must cut something off.
  */
  method Expand(g: Graph, ghost c: Id, limit: nat, cap: nat, ghost d: nat, ghost reach: set<Id>, ghost exceeds: bool,
          ghost before: set<Id>, n: Id, keep0: set<Id>, nxt0: seq<Id>, ghost t0: Trail)
    returns (keep: set<Id>, nxt: seq<Id>, cut: bool, ghost t: Trail, ghost ranked: seq<Id>, i: nat)
    requires IsGraph(g) && n in before && n in g && g[n] <= reach
    requires KeepOk(g, c, limit, d, reach, before, keep0, nxt0, t0) && t0.hop[n] == d
    requires (|g[n]| >= cap || |reach| > limit) ==> exceeds
    ensures KeepOk(g, c, limit, d, reach, before, keep, nxt, t) && SameHops(keep0, t0, t)
    ensures Fills(g, n, cap, limit, keep0, keep, ranked, i) && nxt == nxt0 + Unkept(ranked[..i], keep0)
    ensures cut <==> |g[n]| >= cap || i < |g[n]|
    ensures if cut then exceeds else keep == keep0 + g[n] && |g[n]| < cap
  {
    var neighbours := Ranked(g, n);
    ranked := neighbours;
    cut := false;
    if |g[n]| >= cap {
      neighbours := neighbours[..cap];
      cut := true;
    }
    var full;
    keep, nxt, full, t, i := LookAtAll(g, c, limit, d, reach, before, n, ranked, neighbours, keep0, nxt0, t0);
    cut := cut || full;
    AllListed(g, n, keep0, nxt0, ranked, i, keep, nxt);
  }

  function Neighbours(g: Graph, nodes: seq<Id>): set<Id> {
    if nodes == [] then {}
    else Neighbours(g, nodes[..|nodes| - 1]) + if nodes[|nodes| - 1] in g then g[nodes[|nodes| - 1]] else {}
  }

  lemma {:induction false} NeighboursOf(g: Graph, nodes: seq<Id>, m: Id)
    ensures m in Neighbours(g, nodes) <==> exists n :: n in nodes && n in g && m in g[n]
  {
    if nodes != [] {
      var last := nodes[|nodes| - 1];
      NeighboursOf(g, nodes[..|nodes| - 1], m);
      assert nodes == nodes[..|nodes| - 1] + [last];
    }
  }

  predicate Narrow(g: Graph, cap: nat, n: Id) { n in g && |g[n]| < cap }

  /** A node the round may expand. */
  ghost predicate Expandable(g: Graph, cap: nat, reach: set<Id>, exceeds: bool, keep: set<Id>, n: Id) {
    n in keep && n in g && g[n] <= reach && (|g[n]| >= cap ==> exceeds)
  }

  /** Nothing was cut off and all neighbours of `nodes` are kept, or something had to be cut off. */
  ghost predicate Expanded(g: Graph, cap: nat, exceeds: bool, keep0: set<Id>, nodes: seq<Id>, keep: set<Id>, cut: bool) {
    if cut then exceeds
    else keep == keep0 + Neighbours(g, nodes) && forall j | 0 <= j < |nodes| :: Narrow(g, cap, nodes[j])
  }

  lemma ExpandedStep(g: Graph, cap: nat, exceeds: bool, keep0: set<Id>, nodes: seq<Id>, keep: set<Id>, cut: bool, n: Id,
          keep': set<Id>, cutHere: bool)
    requires Expanded(g, cap, exceeds, keep0, nodes, keep, cut) && n in g
    requires if cutHere then exceeds else keep' == keep + g[n] && |g[n]| < cap
    ensures Expanded(g, cap, exceeds, keep0, nodes + [n], keep', cut || cutHere)
  {
    assert (nodes + [n])[..|nodes|] == nodes;
  }

  /** The first `i` nodes of the frontier have been expanded. */
  ghost predicate RoundOk(g: Graph, c: Id, limit: nat, cap: nat, d: nat, reach: set<Id>, exceeds: bool, keep0: set<Id>,
          t0: Trail, frontier: seq<Id>, i: nat, keep: set<Id>, nxt: seq<Id>, cut: bool, t: Trail)
  {
    && i <= |frontier| && KeepOk(g, c, limit, d, reach, keep0, keep, nxt, t) && SameHops(keep0, t0, t)
    && Expanded(g, cap, exceeds, keep0, frontier[..i], keep, cut)
    && forall j | 0 <= j < i :: TopKept(g, frontier[j], cap, limit, keep)
  }

  lemma TopsStayKept(g: Graph, frontier: seq<Id>, i: nat, cap: nat, limit: nat, keep: set<Id>, more: set<Id>)
    requires i <= |frontier| && keep <= more && |more| <= limit
    requires forall j | 0 <= j < i :: TopKept(g, frontier[j], cap, limit, keep)
    ensures forall j | 0 <= j < i :: TopKept(g, frontier[j], cap, limit, more)
  {
    forall j | 0 <= j < i ensures TopKept(g, frontier[j], cap, limit, more) {
      TopStaysKept(g, frontier[j], cap, limit, keep, more);
    }
  }

  lemma HopsTransitive(keep0: set<Id>, t0: Trail, keep1: set<Id>, t1: Trail, t: Trail)
    requires keep0 <= keep1 && SameHops(keep0, t0, t1) && SameHops(keep1, t1, t)
    ensures SameHops(keep0, t0, t)
  {
  }

  /** `Expand`, as far as a round is concerned. */
  method ExpandOne(g: Graph, ghost c: Id, limit: nat, cap: nat, ghost d: nat, ghost reach: set<Id>, ghost exceeds: bool,
          ghost before: set<Id>, n: Id, keep0: set<Id>, nxt0: seq<Id>, ghost t0: Trail)
    returns (keep: set<Id>, nxt: seq<Id>, cut: bool, ghost t: Trail)
    requires IsGraph(g) && n in before && n in g && g[n] <= reach
    requires KeepOk(g, c, limit, d, reach, before, keep0, nxt0, t0) && t0.hop[n] == d
    requires (|g[n]| >= cap || |reach| > limit) ==> exceeds
    ensures KeepOk(g, c, limit, d, reach, before, keep, nxt, t) && SameHops(keep0, t0, t) && keep0 <= keep
    ensures TopKept(g, n, cap, limit, keep)
    ensures if cut then exceeds else keep == keep0 + g[n] && |g[n]| < cap
  {
    var added;
    ghost var ranked;
    keep, nxt, cut, t, ranked, added := Expand(g, c, limit, cap, d, reach, exceeds, before, n, keep0, nxt0, t0);
    FilledIsTop(g, n, cap, limit, keep0, keep, ranked, added);
  }

  method ExpandNext(g: Graph, ghost c: Id, limit: nat, cap: nat, ghost d: nat, ghost reach: set<Id>,
          ghost exceeds: bool, ghost keep0: set<Id>, ghost t0: Trail, frontier: seq<Id>, i: nat, keep1: set<Id>,
          nxt1: seq<Id>, cut1: bool, ghost t1: Trail)
    returns (keep: set<Id>, nxt: seq<Id>, cut: bool, ghost t: Trail)
    requires IsGraph(g) && i < |frontier| && (|reach| > limit ==> exceeds)
    requires Expandable(g, cap, reach, exceeds, keep0, frontier[i]) && frontier[i] in t0.hop && t0.hop[frontier[i]] == d
    requires RoundOk(g, c, limit, cap, d, reach, exceeds, keep0, t0, frontier, i, keep1, nxt1, cut1, t1)
    ensures RoundOk(g, c, limit, cap, d, reach, exceeds, keep0, t0, frontier, i + 1, keep, nxt, cut, t)
  {
    var cutHere;
    keep, nxt, cutHere, t := ExpandOne(g, c, limit, cap, d, reach, exceeds, keep0, frontier[i], keep1, nxt1, t1);
    cut := cut1 || cutHere;
    HopsTransitive(keep0, t0, keep1, t1, t);
    TopsStayKept(g, frontier, i, cap, limit, keep1, keep);
    ExpandedStep(g, cap, exceeds, keep0, frontier[..i], keep1, cut1, frontier[i], keep, cutHere);
    assert frontier[..i + 1] == frontier[..i] + [frontier[i]];
  }

  /** One round: all frontier nodes in turn. */
  method Round(g: Graph, ghost c: Id, limit: nat, cap: nat, ghost d: nat, ghost reach: set<Id>, ghost exceeds: bool,
          frontier: seq<Id>, keep0: set<Id>, ghost t0: Trail)
    returns (keep: set<Id>, nxt: seq<Id>, cut: bool, ghost t: Trail)
    requires IsGraph(g) && TrailOk(g, c, keep0, t0, d) && keep0 <= reach && |keep0| <= limit
    requires forall j | 0 <= j < |frontier| :: Expandable(g, cap, reach, exceeds, keep0, frontier[j])
    requires |reach| > limit ==> exceeds
    requires forall j | 0 <= j < |frontier| :: frontier[j] in t0.hop && t0.hop[frontier[j]] == d
    ensures KeepOk(g, c, limit, d, reach, keep0, keep, nxt, t) && SameHops(keep0, t0, t)
    ensures Expanded(g, cap, exceeds, keep0, frontier, keep, cut)
    ensures forall j | 0 <= j < |frontier| :: TopKept(g, frontier[j], cap, limit, keep)
  {
    keep, nxt, cut, t := keep0, [], false, t0;
    for i := 0 to |frontier|
      invariant RoundOk(g, c, limit, cap, d, reach, exceeds, keep0, t0, frontier, i, keep, nxt, cut, t)
    {
      keep, nxt, cut, t := ExpandNext(g, c, limit, cap, d, reach, exceeds, keep0, t0, frontier, i, keep, nxt, cut, t);
    }
    assert frontier[..|frontier|] == frontier;
  }

  // ---------------------------------------------------------------- the rounds

  /** While nothing is cut off, the kept set is the ball and everything outside the frontier is fully expanded. */
  ghost predicate BallOk(g: Graph, c: Id, cap: nat, d: nat, keep: set<Id>, frontier: seq<Id>) {
    && keep == Ball(g, c, d)
    && (forall n | n in keep :: n in frontier || (n in g && |g[n]| < cap && g[n] <= keep))
  }

  lemma AroundFrontier(g: Graph, keep: set<Id>, frontier: seq<Id>)
    requires forall n | n in keep :: n in frontier || (n in g && g[n] <= keep)
    ensures Around(g, g.Keys, keep) <= keep + Neighbours(g, frontier)
  {
    forall m | m in Around(g, g.Keys, keep) ensures m in keep + Neighbours(g, frontier) {
      var n: Id :| n in keep && n in g && m in g[n];
      NeighboursOf(g, frontier, m);
    }
  }

  lemma FrontierAround(g: Graph, keep: set<Id>, frontier: seq<Id>)
    requires IsGraph(g) && forall n | n in frontier :: n in keep
    ensures Neighbours(g, frontier) <= Around(g, g.Keys, keep)
  {
    forall m | m in Neighbours(g, frontier) ensures m in Around(g, g.Keys, keep) {
      NeighboursOf(g, frontier, m);
      var n: Id :| n in frontier && n in g && m in g[n];
      AroundIntro(g, g.Keys, keep, n, m);
    }
  }

  /** The next ball lies around the frontier. */
  lemma NextBall(g: Graph, c: Id, cap: nat, d: nat, keep: set<Id>, frontier: seq<Id>)
    requires IsGraph(g) && BallOk(g, c, cap, d, keep, frontier) && forall n | n in frontier :: n in keep
    ensures Ball(g, c, d + 1) == keep + Neighbours(g, frontier)
  {
    AroundFrontier(g, keep, frontier);
    FrontierAround(g, keep, frontier);
  }

  lemma NextRound(g: Graph, c: Id, cap: nat, d: nat, before: set<Id>, frontier: seq<Id>, keep: set<Id>, nxt: seq<Id>)
    requires IsGraph(g) && BallOk(g, c, cap, d, before, frontier) && forall n | n in frontier :: n in before && n in g
    requires keep == before + Neighbours(g, frontier) && forall n | n in frontier :: |g[n]| < cap
    requires forall n :: n in nxt <==> n in keep && n !in before
    ensures BallOk(g, c, cap, d + 1, keep, nxt)
    ensures forall n | n in Ball(g, c, d) :: n in g && |g[n]| < cap
  {
    NextBall(g, c, cap, d, before, frontier);
    forall n, m | n in frontier && n in g && m in g[n] ensures m in keep {
      NeighboursOf(g, frontier, m);
    }
  }

  lemma BallStep(g: Graph, c: Id, d: nat, n: Id)
    requires IsGraph(g) && n in Ball(g, c, d) && n in g
    ensures g[n] <= Ball(g, c, d + 1)
  {
    forall m | m in g[n] ensures m in Around(g, g.Keys, Ball(g, c, d)) {
      assert m in g;
      AroundIntro(g, g.Keys, Ball(g, c, d), n, m);
    }
  }

  lemma CapExceeds(g: Graph, c: Id, hops: nat, limit: nat, cap: nat, d: nat, n: Id)
    requires d < hops && n in Ball(g, c, d) && n in g && |g[n]| >= cap
    ensures Exceeds(g, c, hops, limit, cap)
  {
    NearGrows(g, g.Keys, c, d, hops - 1);
  }

  lemma SizeExceeds(g: Graph, c: Id, hops: nat, limit: nat, cap: nat, d: nat)
    requires d < hops && |Ball(g, c, d + 1)| > limit
    ensures Exceeds(g, c, hops, limit, cap)
  {
    NearGrows(g, g.Keys, c, d + 1, hops);
    Subset(Ball(g, c, d + 1), Ball(g, c, hops));
  }

  lemma FrontierNode(g: Graph, c: Id, hops: nat, limit: nat, cap: nat, d: nat, n: Id)
    requires IsGraph(g) && d < hops && n in Ball(g, c, d)
    ensures n in g && g[n] <= Ball(g, c, d + 1) && (|g[n]| >= cap ==> Exceeds(g, c, hops, limit, cap))
  {
    NearWithin(g, g.Keys, c, d);
    BallStep(g, c, d, n);
    if |g[n]| >= cap {
      CapExceeds(g, c, hops, limit, cap, d, n);
    }
  }

  /** Every node of a frontier may be expanded in the round of distance `d`. */
  lemma FrontierReady(g: Graph, c: Id, hops: nat, limit: nat, cap: nat, d: nat, keep: set<Id>, frontier: seq<Id>)
    requires IsGraph(g) && d < hops && keep <= Ball(g, c, d) && forall n | n in frontier :: n in keep
    ensures forall j | 0 <= j < |frontier| ::
              Expandable(g, cap, Ball(g, c, d + 1), Exceeds(g, c, hops, limit, cap), keep, frontier[j])
  {
    forall j | 0 <= j < |frontier|
      ensures Expandable(g, cap, Ball(g, c, d + 1), Exceeds(g, c, hops, limit, cap), keep, frontier[j])
    {
      assert frontier[j] in frontier;
      FrontierNode(g, c, hops, limit, cap, d, frontier[j]);
    }
  }

  /** All nodes that the rounds before distance `d` expanded stay below the cap. */
  ghost predicate UnderCap(g: Graph, c: Id, cap: nat, d: nat) {
    d > 0 ==> forall n | n in Ball(g, c, d - 1) :: n in g && |g[n]| < cap
  }

  /** The search before the round of distance `d`. */
  ghost predicate SearchOk(g: Graph, c: Id, hops: nat, limit: nat, cap: nat, d: nat, keep: set<Id>, frontier: seq<Id>,
          t: Trail, truncated: bool)
    requires hops >= 1
  {
    && TrailOk(g, c, keep, t, d) && keep <= Ball(g, c, d) && |keep| <= limit
    && (forall n | n in frontier :: n in keep && t.hop[n] == d)
    && (forall n | n in keep && t.hop[n] == d :: n in frontier)
    && (forall n | n in keep && t.hop[n] < d :: TopKept(g, n, cap, limit, keep))
    && (if truncated then Exceeds(g, c, hops, limit, cap) else BallOk(g, c, cap, d, keep, frontier) && UnderCap(g, c, cap, d))
  }

  lemma TopsKept(g: Graph, c: Id, limit: nat, cap: nat, d: nat, keep0: set<Id>, frontier: seq<Id>, t0: Trail,
          keep: set<Id>, nxt: seq<Id>, t: Trail)
    requires TrailOk(g, c, keep0, t0, d) && keep0 <= keep && |keep| <= limit && SameHops(keep0, t0, t)
    requires t.hop.Keys == keep && (forall n :: n in nxt <==> n in keep && n !in keep0) && forall n | n in nxt :: t.hop[n] == d + 1
    requires forall n | n in keep0 && t0.hop[n] == d :: n in frontier
    requires forall n | n in keep0 && t0.hop[n] < d :: TopKept(g, n, cap, limit, keep0)
    requires forall j | 0 <= j < |frontier| :: TopKept(g, frontier[j], cap, limit, keep)
    ensures forall n | n in keep && t.hop[n] < d + 1 :: TopKept(g, n, cap, limit, keep)
    ensures forall n | n in keep && t.hop[n] == d + 1 :: n in nxt
  {
    forall n | n in keep && t.hop[n] < d + 1 ensures TopKept(g, n, cap, limit, keep) {
      assert n in keep0;
      if t0.hop[n] < d {
        TopStaysKept(g, n, cap, limit, keep0, keep);
      } else {
        var j :| 0 <= j < |frontier| && frontier[j] == n;
      }
    }
  }

  /** One turn of the loop over distances. */
  method ExploreRound(g: Graph, ghost c: Id, ghost hops: nat, limit: nat, cap: nat, ghost d: nat, keep0: set<Id>,
          frontier: seq<Id>, ghost t0: Trail, truncated0: bool)
    returns (keep: set<Id>, nxt: seq<Id>, ghost t: Trail, truncated: bool)
    requires IsGraph(g) && d < hops && SearchOk(g, c, hops, limit, cap, d, keep0, frontier, t0, truncated0)
    ensures SearchOk(g, c, hops, limit, cap, d + 1, keep, nxt, t, truncated)
  {
    NearGrows(g, g.Keys, c, d, d + 1);
    if |Ball(g, c, d + 1)| > limit {
      SizeExceeds(g, c, hops, limit, cap, d);
    }
    FrontierReady(g, c, hops, limit, cap, d, keep0, frontier);
    ghost var exceeds := Exceeds(g, c, hops, limit, cap);
    var cut;
    keep, nxt, cut, t := Round(g, c, limit, cap, d, Ball(g, c, d + 1), exceeds, frontier, keep0, t0);
    truncated := truncated0 || cut;
    TopsKept(g, c, limit, cap, d, keep0, frontier, t0, keep, nxt, t);
    if !truncated {
      RoundIsExact(g, c, cap, d, keep0, frontier, keep, nxt, exceeds);
    }
  }

  lemma RoundIsExact(g: Graph, c: Id, cap: nat, d: nat, before: set<Id>, frontier: seq<Id>, keep: set<Id>, nxt: seq<Id>,
          exceeds: bool)
    requires IsGraph(g) && BallOk(g, c, cap, d, before, frontier) && forall n | n in frontier :: n in before
    requires Expanded(g, cap, exceeds, before, frontier, keep, false)
    requires forall n :: n in nxt <==> n in keep && n !in before
    ensures BallOk(g, c, cap, d + 1, keep, nxt) && UnderCap(g, c, cap, d + 1)
  {
    forall n | n in frontier ensures n in g && |g[n]| < cap {
      var j :| 0 <= j < |frontier| && frontier[j] == n;
      assert Narrow(g, cap, frontier[j]);
    }
    NextRound(g, c, cap, d, before, frontier, keep, nxt);
  }

  /**
   The kept nodes were found on paths of at most `hops` edges, and of each node found on fewer edges the most connected
   neighbours are kept, as many as the cap lets through, unless the limit is met.
  */
  ghost predicate Explored(g: Graph, c: Id, hops: nat, limit: nat, cap: nat, keep: set<Id>) {
    exists t :: TrailOk(g, c, keep, t, hops) && forall n | n in keep && t.hop[n] < hops :: TopKept(g, n, cap, limit, keep)
  }

  lemma SearchDone(g: Graph, c: Id, hops: nat, limit: nat, cap: nat, keep: set<Id>, frontier: seq<Id>, t: Trail,
          truncated: bool)
    requires hops >= 1 && SearchOk(g, c, hops, limit, cap, hops, keep, frontier, t, truncated)
    ensures c in keep && keep <= Near(g, keep, c, hops) && Explored(g, c, hops, limit, cap, keep)
    ensures !truncated ==> keep == Ball(g, c, hops)
    ensures truncated <==> Exceeds(g, c, hops, limit, cap)
  {
    KeptIsNear(g, c, keep, t, hops);
  }

  /**
   The centred search. Whatever is cut off: at most the clamped number of nodes is kept, and each lies within the clamped
   number of edges of the centre on a path of kept nodes. The flag is exact: it stays false if and only if no node the
   search would expand meets the cap and the whole ball fits the limit, and then the kept set is that ball.
  */
  method Explore(g: Graph, center: Id, hops: int, maxNodes: int, config: Config)
    returns (keep: set<Id>, truncated: bool)
    requires IsGraph(g) && center in g
    ensures |keep| <= NodeLimit(maxNodes, config)
    ensures center in keep && keep <= Near(g, keep, center, HopLimit(hops, config))
    ensures Explored(g, center, HopLimit(hops, config), NodeLimit(maxNodes, config), config.supernodeDegree, keep)
    ensures !truncated ==> keep == Ball(g, center, HopLimit(hops, config))
    ensures truncated <==> Exceeds(g, center, HopLimit(hops, config), NodeLimit(maxNodes, config), config.supernodeDegree)
  {
    var h, limit, cap := HopLimit(hops, config), NodeLimit(maxNodes, config), config.supernodeDegree;
    keep, truncated := {center}, false;
    var frontier := [center];
    ghost var t := Trail(map[center := 0], map[center := center]);
    for d := 0 to h
      invariant SearchOk(g, center, h, limit, cap, d, keep, frontier, t, truncated)
    {
      keep, frontier, t, truncated := ExploreRound(g, center, h, limit, cap, d, keep, frontier, t, truncated);
    }
    SearchDone(g, center, h, limit, cap, keep, frontier, t, truncated);
  }
}
