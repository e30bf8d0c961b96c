/**
 The case graph built from claims (`build_projection` of `graph.py`): the quotient of the claim graph under the
 representatives of approved matches.
*/
module Projection {
  import opened Common
  import opened UnionFind

  type Time = int
  type Label = nat

  datatype Kind = ATTRIBUTE | RELATIONSHIP | MENTION

  datatype State = ALLOWED | APPROVE | CONTRADICTORY | OtherState

  datatype Rel = APPEARS_IN | NAMED_IN | OtherRel(name: Id)

  /** A claim row, with its observed time parsed if it can be. */
  datatype Claim = Claim(id: Id, kind: Kind, state: State, rel: Rel, source: Id, target: Option<Id>, time: Option<Time>)

  /** What the caller asks for. */
  datatype View = View(includeCase: bool, from: Option<Time>, to: Option<Time>)

  datatype Node = Node(title: Label, mergedFrom: seq<Label>, contradictions: seq<Id>)

  type EdgeKey = (Id, Id, Id)

  // ---------------------------------------------------------------- which claims matter

  predicate IsRead(view: View, c: Claim) {
    c.state != OtherState && (view.includeCase || (c.rel != APPEARS_IN && c.rel != NAMED_IN))
  }

  predicate InTime(view: View, t: Option<Time>) {
    t.None? || ((view.from.None? || t.value >= view.from.value) && (view.to.None? || t.value <= view.to.value))
  }

  predicate LinksTwo(c: Claim) { c.kind == RELATIONSHIP && c.target.Some? }

  /** The claim becomes an edge. */
  predicate IsEdge(view: View, c: Claim) {
    IsRead(view, c) && LinksTwo(c) && c.state != CONTRADICTORY && InTime(view, c.time)
  }

  predicate Flags(view: View, c: Claim) { IsRead(view, c) && c.kind == ATTRIBUTE && c.state == CONTRADICTORY }

  /** The entities for which the claim demands a node. */
  function Demands(view: View, c: Claim): seq<Id> {
    if !IsRead(view, c) then []
    else if !LinksTwo(c) then [c.source]
    else if IsEdge(view, c) then [c.source, c.target.value]
    else []
  }

  // ---------------------------------------------------------------- the graph that the claims mean

  function Demanded(view: View, claims: seq<Claim>): seq<Id> {
    if claims == [] then [] else Demanded(view, claims[..|claims| - 1]) + Demands(view, claims[|claims| - 1])
  }

  /** The contradictory attribute claims of a node's entities, in order. */
  function FlaggedBy(view: View, merges: map<Id, Id>, claims: seq<Claim>, r: Id): seq<Id> {
    if claims == [] then []
    else
      var before, c := FlaggedBy(view, merges, claims[..|claims| - 1], r), claims[|claims| - 1];
      if Flags(view, c) && Rep(merges, c.source) == r then before + [c.id] else before
  }

  function KeyOf(merges: map<Id, Id>, c: Claim): EdgeKey
    requires c.target.Some?
  {
    (Rep(merges, c.source), Rep(merges, c.target.value), c.id)
  }

  function EdgesOf(view: View, merges: map<Id, Id>, claims: seq<Claim>): map<EdgeKey, Claim> {
    if claims == [] then map[]
    else
      var before, c := EdgesOf(view, merges, claims[..|claims| - 1]), claims[|claims| - 1];
      if IsEdge(view, c) then before[KeyOf(merges, c) := c] else before
  }

  /** The entities whose rows are loaded. */
  function Loaded(view: View, claims: seq<Claim>): set<Id> {
    (set c | c in claims && IsRead(view, c) :: c.source) +
    (set c | c in claims && IsRead(view, c) && c.target.Some? :: c.target.value)
  }

  /** What names a node: the representative's row if it is loaded, else the row of the entity that came first. */
  function FirstOf(merges: map<Id, Id>, demanded: seq<Id>, r: Id): Id {
    if demanded == [] then r else if Rep(merges, demanded[0]) == r then demanded[0] else FirstOf(merges, demanded[1..], r)
  }

  function NameOf(merges: map<Id, Id>, loaded: set<Id>, demanded: seq<Id>, r: Id): Id {
    if r in loaded then r else FirstOf(merges, demanded, r)
  }

  ghost predicate Joined(merges: map<Id, Id>, labels: map<Id, Label>, demanded: seq<Id>, r: Id, l: Label) {
    exists e :: e in demanded && Rep(merges, e) == r && e != r && e in labels && labels[e] == l
  }

  /** A node's label, and the other labels of the entities merged into it, each once. */
  ghost predicate Named(merges: map<Id, Id>, labels: map<Id, Label>, loaded: set<Id>, demanded: seq<Id>, r: Id, n: Node)
  {
    && (var name := NameOf(merges, loaded, demanded, r); name in labels && n.title == labels[name])
    && (forall i, j | 0 <= i < j < |n.mergedFrom| :: n.mergedFrom[i] != n.mergedFrom[j])
    && (forall l :: l in n.mergedFrom <==> l != n.title && Joined(merges, labels, demanded, r, l))
  }

  ghost predicate Stands(merges: map<Id, Id>, demanded: seq<Id>, r: Id) {
    exists e :: e in demanded && Rep(merges, e) == r
  }

  /** One node for every representative of a demanded entity, and no other. */
  ghost predicate NodesMatch(merges: map<Id, Id>, labels: map<Id, Label>, loaded: set<Id>, demanded: seq<Id>,
          nodes: map<Id, Node>)
  {
    && (forall r :: r in nodes <==> Stands(merges, demanded, r))
    && (forall r | r in nodes :: Named(merges, labels, loaded, demanded, r, nodes[r]))
  }

  ghost predicate FlagsMatch(view: View, merges: map<Id, Id>, claims: seq<Claim>, nodes: map<Id, Node>) {
    forall r | r in nodes :: nodes[r].contradictions == FlaggedBy(view, merges, claims, r)
  }

  // ---------------------------------------------------------------- facts about the specification

  lemma {:induction false} FirstOfStep(merges: map<Id, Id>, demanded: seq<Id>, e: Id, r: Id)
    ensures FirstOf(merges, demanded + [e], r)
         == if Stands(merges, demanded, r) then FirstOf(merges, demanded, r) else if Rep(merges, e) == r then e else r
    ensures Stands(merges, demanded, r) ==> FirstOf(merges, demanded, r) in demanded && Rep(merges, FirstOf(merges, demanded, r)) == r
  {
    if demanded == [] {
      assert ([] + [e])[1..] == [];
    } else {
      assert (demanded + [e])[1..] == demanded[1..] + [e];
      FirstOfStep(merges, demanded[1..], e, r);
      if Rep(merges, demanded[0]) == r {
        assert demanded[0] in demanded;
      } else {
        assert Stands(merges, demanded, r) ==> Stands(merges, demanded[1..], r) by {
          forall x | x in demanded && Rep(merges, x) == r ensures x in demanded[1..] {
            var i :| 0 <= i < |demanded| && demanded[i] == x;
            assert demanded[1..][i - 1] == x;
          }
        }
      }
    }
  }

  lemma StandsStep(merges: map<Id, Id>, demanded: seq<Id>, e: Id, r: Id)
    ensures Stands(merges, demanded + [e], r) <==> Stands(merges, demanded, r) || Rep(merges, e) == r
  {
    assert e in demanded + [e];
    if Stands(merges, demanded, r) {
      var x :| x in demanded && Rep(merges, x) == r;
      assert x in demanded + [e];
    }
  }

  lemma JoinedStep(merges: map<Id, Id>, labels: map<Id, Label>, demanded: seq<Id>, e: Id, r: Id, l: Label)
    ensures Joined(merges, labels, demanded + [e], r, l)
       <==> Joined(merges, labels, demanded, r, l) || (Rep(merges, e) == r && e != r && e in labels && labels[e] == l)
  {
    assert e in demanded + [e];
    if Joined(merges, labels, demanded, r, l) {
      var x :| x in demanded && Rep(merges, x) == r && x != r && x in labels && labels[x] == l;
      assert x in demanded + [e];
    }
  }

  /** A node keeps its name when another entity joins. */
  lemma OthersKeepNames(merges: map<Id, Id>, labels: map<Id, Label>, loaded: set<Id>, demanded: seq<Id>, e: Id, r: Id,
          n: Node)
    requires Stands(merges, demanded, r) && Named(merges, labels, loaded, demanded, r, n)
    requires Rep(merges, e) != r || e == r || e !in labels || labels[e] == n.title || labels[e] in n.mergedFrom
    ensures Named(merges, labels, loaded, demanded + [e], r, n)
  {
    FirstOfStep(merges, demanded, e, r);
    forall l ensures l in n.mergedFrom <==> l != n.title && Joined(merges, labels, demanded + [e], r, l) {
      JoinedStep(merges, labels, demanded, e, r, l);
    }
  }

  lemma JoinerIsNamed(merges: map<Id, Id>, labels: map<Id, Label>, loaded: set<Id>, demanded: seq<Id>, e: Id, n: Node)
    requires e in labels
    ensures var r := Rep(merges, e);
            Stands(merges, demanded, r) && Named(merges, labels, loaded, demanded, r, n) && r != e && labels[e] !in n.mergedFrom && labels[e] != n.title
            ==> Named(merges, labels, loaded, demanded + [e], r, n.(mergedFrom := n.mergedFrom + [labels[e]]))
  {
    var r := Rep(merges, e);
    FirstOfStep(merges, demanded, e, r);
    forall l ensures Joined(merges, labels, demanded + [e], r, l) <==> Joined(merges, labels, demanded, r, l) || (e != r && labels[e] == l) {
      JoinedStep(merges, labels, demanded, e, r, l);
    }
  }

  lemma NewcomerIsNamed(merges: map<Id, Id>, labels: map<Id, Label>, loaded: set<Id>, demanded: seq<Id>, e: Id, n: Node)
    requires !Stands(merges, demanded, Rep(merges, e)) && e in labels
    requires var r := Rep(merges, e);
             var name := if r in loaded then r else e;
             name in labels && n.title == labels[name]
             && n.mergedFrom == if r != e && labels[e] != n.title then [labels[e]] else []
    ensures Named(merges, labels, loaded, demanded + [e], Rep(merges, e), n)
  {
    var r := Rep(merges, e);
    FirstOfStep(merges, demanded, e, r);
    forall l ensures Joined(merges, labels, demanded + [e], r, l) <==> (e != r && labels[e] == l) {
      JoinedStep(merges, labels, demanded, e, r, l);
    }
  }

  lemma FlaggedStep(view: View, merges: map<Id, Id>, claims: seq<Claim>, c: Claim, r: Id)
    ensures FlaggedBy(view, merges, claims + [c], r)
         == FlaggedBy(view, merges, claims, r) + if Flags(view, c) && Rep(merges, c.source) == r then [c.id] else []
  {
    assert (claims + [c])[..|claims|] == claims;
  }

  lemma EdgesStep(view: View, merges: map<Id, Id>, claims: seq<Claim>, c: Claim)
    ensures EdgesOf(view, merges, claims + [c])
         == if IsEdge(view, c) then EdgesOf(view, merges, claims)[KeyOf(merges, c) := c] else EdgesOf(view, merges, claims)
  {
    assert (claims + [c])[..|claims|] == claims;
  }

  /** No contradictory claim of an entity without a node. */
  lemma {:induction false} FlaggedHasNode(view: View, merges: map<Id, Id>, claims: seq<Claim>, r: Id)
    requires !Stands(merges, Demanded(view, claims), r)
    ensures FlaggedBy(view, merges, claims, r) == []
  {
    if claims != [] {
      var before, c := claims[..|claims| - 1], claims[|claims| - 1];
      forall e | e in Demanded(view, before) || e in Demands(view, c) ensures e in Demanded(view, claims) {
      }
      FlaggedHasNode(view, merges, before, r);
      if Flags(view, c) {
        assert Demands(view, c)[0] == c.source;
      }
    }
  }

  /** What a node's flags record, if it is there. */
  function FlagsAt(nodes: map<Id, Node>, r: Id): seq<Id> { if r in nodes then nodes[r].contradictions else [] }

  /** The flags after a claim that has seen to its nodes. */
  lemma FlagsStep(view: View, merges: map<Id, Id>, before: seq<Claim>, c: Claim, nodes: map<Id, Node>,
          nodes': map<Id, Node>)
    requires FlagsMatch(view, merges, before, nodes)
    requires forall r :: r in nodes <==> Stands(merges, Demanded(view, before), r)
    requires forall r ::
               FlagsAt(nodes', r) == FlagsAt(nodes, r) + if Flags(view, c) && Rep(merges, c.source) == r then [c.id] else []
    ensures FlagsMatch(view, merges, before + [c], nodes')
  {
    forall r | r in nodes' ensures nodes'[r].contradictions == FlaggedBy(view, merges, before + [c], r) {
      FlaggedStep(view, merges, before, c, r);
      assert nodes'[r].contradictions == FlagsAt(nodes', r);
      if r !in nodes {
        FlaggedHasNode(view, merges, before, r);
      }
    }
  }

  lemma FlaggingKeepsNames(merges: map<Id, Id>, labels: map<Id, Label>, loaded: set<Id>, demanded: seq<Id>,
          nodes: map<Id, Node>, r: Id, flags: seq<Id>)
    requires NodesMatch(merges, labels, loaded, demanded, nodes) && r in nodes
    ensures NodesMatch(merges, labels, loaded, demanded, nodes[r := nodes[r].(contradictions := flags)])
  {
    var nodes' := nodes[r := nodes[r].(contradictions := flags)];
    forall x | x in nodes' ensures Named(merges, labels, loaded, demanded, x, nodes'[x]) {
      assert Named(merges, labels, loaded, demanded, x, nodes[x]);
    }
  }

  // ---------------------------------------------------------------- the program

  class Graph {
    var nodes: map<Id, Node>
    var edges: map<EdgeKey, Claim>

    constructor ()
      ensures nodes == map[] && edges == map[]
    {
      nodes, edges := map[], map[];
    }

    /** `ensure_node`. */
    method EnsureNode(merges: map<Id, Id>, labels: map<Id, Label>, loaded: set<Id>, e: Id, ghost demanded: seq<Id>)
      returns (r: Id)
      requires loaded <= labels.Keys && e in loaded
      requires NodesMatch(merges, labels, loaded, demanded, nodes)
      modifies this`nodes
      ensures r == Rep(merges, e) && r in nodes
      ensures NodesMatch(merges, labels, loaded, demanded + [e], nodes)
      ensures forall x :: FlagsAt(nodes, x) == FlagsAt(old(nodes), x)
    {
      r := Rep(merges, e);
      ghost var before := nodes;
      forall x ensures Stands(merges, demanded + [e], x) <==> Stands(merges, demanded, x) || x == r {
        StandsStep(merges, demanded, e, x);
      }
      if r !in nodes {
        var title := if r in loaded then labels[r] else labels[e];
        nodes := nodes[r := Node(title, [], [])];
      }
      if r != e && labels[e] !in nodes[r].mergedFrom && labels[e] != nodes[r].title {
        nodes := nodes[r := nodes[r].(mergedFrom := nodes[r].mergedFrom + [labels[e]])];
      }
      forall x | x in nodes ensures Named(merges, labels, loaded, demanded + [e], x, nodes[x]) {
        if x in before {
          assert Stands(merges, demanded, x) && Named(merges, labels, loaded, demanded, x, before[x]);
          if nodes[x] == before[x] {
            OthersKeepNames(merges, labels, loaded, demanded, e, x, before[x]);
          } else {
            JoinerIsNamed(merges, labels, loaded, demanded, e, before[x]);
          }
        } else {
          NewcomerIsNamed(merges, labels, loaded, demanded, e, nodes[x]);
        }
      }
    }

    /** `ensure_node`, and the claim's flag if it is contradictory. */
    method EnsureFlagged(merges: map<Id, Id>, labels: map<Id, Label>, loaded: set<Id>, e: Id, flags: seq<Id>,
            ghost demanded: seq<Id>)
      requires loaded <= labels.Keys && e in loaded
      requires NodesMatch(merges, labels, loaded, demanded, nodes)
      modifies this`nodes
      ensures NodesMatch(merges, labels, loaded, demanded + [e], nodes)
      ensures forall x :: FlagsAt(nodes, x) == FlagsAt(old(nodes), x) + if x == Rep(merges, e) then flags else []
    {
      var n := EnsureNode(merges, labels, loaded, e, demanded);
      FlaggingKeepsNames(merges, labels, loaded, demanded + [e], nodes, n, nodes[n].contradictions + flags);
      nodes := nodes[n := nodes[n].(contradictions := nodes[n].contradictions + flags)];
    }

    /** The graph is the one the claims mean. */
    ghost predicate Means(view: View, merges: map<Id, Id>, labels: map<Id, Label>, loaded: set<Id>, claims: seq<Claim>)
      reads this
    {
      && NodesMatch(merges, labels, loaded, Demanded(view, claims), nodes)
      && FlagsMatch(view, merges, claims, nodes)
      && edges == EdgesOf(view, merges, claims)
    }

    /** A claim that demands its source's node alone: an attribute, a mention, a relationship without target. */
    method AdmitOne(view: View, merges: map<Id, Id>, labels: map<Id, Label>, loaded: set<Id>, c: Claim,
            ghost before: seq<Claim>)
      requires loaded <= labels.Keys && c.source in loaded && IsRead(view, c) && !LinksTwo(c)
      requires Means(view, merges, labels, loaded, before)
      modifies this`nodes
      ensures Means(view, merges, labels, loaded, before + [c])
    {
      ghost var nodes0 := nodes;
      EdgesStep(view, merges, before, c);
      var flags := if c.kind == ATTRIBUTE && c.state == CONTRADICTORY then [c.id] else [];
      EnsureFlagged(merges, labels, loaded, c.source, flags, Demanded(view, before));
      FlagsStep(view, merges, before, c, nodes0, nodes);
    }

    /** Both ends of a relationship. */
    method EnsureEnds(merges: map<Id, Id>, labels: map<Id, Label>, loaded: set<Id>, source: Id, target: Id,
            ghost demanded: seq<Id>) returns (s: Id, d: Id)
      requires loaded <= labels.Keys && source in loaded && target in loaded
      requires NodesMatch(merges, labels, loaded, demanded, nodes)
      modifies this`nodes
      ensures s == Rep(merges, source) && d == Rep(merges, target)
      ensures NodesMatch(merges, labels, loaded, demanded + [source, target], nodes)
      ensures forall x :: FlagsAt(nodes, x) == FlagsAt(old(nodes), x)
    {
      s := EnsureNode(merges, labels, loaded, source, demanded);
      d := EnsureNode(merges, labels, loaded, target, demanded + [source]);
      assert demanded + [source] + [target] == demanded + [source, target];
    }

    /** A relationship that becomes an edge. */
    method AdmitEdge(view: View, merges: map<Id, Id>, labels: map<Id, Label>, loaded: set<Id>, c: Claim,
            ghost before: seq<Claim>)
      requires IsEdge(view, c)
      requires loaded <= labels.Keys && c.source in loaded && c.target.value in loaded
      requires Means(view, merges, labels, loaded, before)
      modifies this
      ensures Means(view, merges, labels, loaded, before + [c])
    {
      ghost var nodes0 := nodes;
      EdgesStep(view, merges, before, c);
      var s, d := EnsureEnds(merges, labels, loaded, c.source, c.target.value, Demanded(view, before));
      FlagsStep(view, merges, before, c, nodes0, nodes);
      edges := edges[(s, d, c.id) := c];
    }
  }

  lemma SkipStep(view: View, merges: map<Id, Id>, claims: seq<Claim>, c: Claim)
    requires !IsRead(view, c) || (LinksTwo(c) && !IsEdge(view, c))
    ensures Demanded(view, claims + [c]) == Demanded(view, claims)
    ensures EdgesOf(view, merges, claims + [c]) == EdgesOf(view, merges, claims)
    ensures forall r :: FlaggedBy(view, merges, claims + [c], r) == FlaggedBy(view, merges, claims, r)
  {
    EdgesStep(view, merges, claims, c);
    forall r ensures FlaggedBy(view, merges, claims + [c], r) == FlaggedBy(view, merges, claims, r) {
      FlaggedStep(view, merges, claims, c, r);
    }
  }

  /** One turn of the claim loop. */
  method Admit(g: Graph, view: View, merges: map<Id, Id>, labels: map<Id, Label>, loaded: set<Id>, c: Claim,
          ghost before: seq<Claim>)
    requires loaded <= labels.Keys && (IsRead(view, c) ==> c.source in loaded && (c.target.Some? ==> c.target.value in loaded))
    requires g.Means(view, merges, labels, loaded, before)
    modifies g
    ensures g.Means(view, merges, labels, loaded, before + [c])
  {
    if !IsRead(view, c) {
      SkipStep(view, merges, before, c);
    } else if c.kind != RELATIONSHIP || c.target.None? {
      g.AdmitOne(view, merges, labels, loaded, c, before);
    } else if c.state == CONTRADICTORY || !InTime(view, c.time) {
      SkipStep(view, merges, before, c);
    } else {
      g.AdmitEdge(view, merges, labels, loaded, c, before);
    }
  }

  method AdmitAll(g: Graph, view: View, merges: map<Id, Id>, labels: map<Id, Label>, loaded: set<Id>,
          claims: seq<Claim>)
    requires loaded <= labels.Keys
    requires forall c | c in claims && IsRead(view, c) :: c.source in loaded && (c.target.Some? ==> c.target.value in loaded)
    requires g.nodes == map[] && g.edges == map[]
    modifies g
    ensures g.Means(view, merges, labels, loaded, claims)
  {
    for i := 0 to |claims|
      invariant g.Means(view, merges, labels, loaded, claims[..i])
    {
      assert claims[..i + 1] == claims[..i] + [claims[i]];
      Admit(g, view, merges, labels, loaded, claims[i], claims[..i]);
    }
    assert claims[..|claims|] == claims;
  }

  // ---------------------------------------------------------------- nothing is lost

  /** Claim ids are primary keys. */
  predicate DistinctIds(claims: seq<Claim>) {
    forall i, j | 0 <= i < j < |claims| :: claims[i].id != claims[j].id
  }

  function Admitted(view: View, claims: seq<Claim>): set<Claim> {
    set c | c in claims && IsEdge(view, c)
  }

  lemma {:induction false} EdgeIsClaim(view: View, merges: map<Id, Id>, claims: seq<Claim>, key: EdgeKey)
    requires key in EdgesOf(view, merges, claims)
    ensures var c := EdgesOf(view, merges, claims)[key]; c in claims && IsEdge(view, c) && KeyOf(merges, c) == key
  {
    var before := claims[..|claims| - 1];
    if key in EdgesOf(view, merges, before) {
      EdgeIsClaim(view, merges, before, key);
    }
  }

  lemma {:induction false} ClaimIsEdge(view: View, merges: map<Id, Id>, claims: seq<Claim>, i: nat)
    requires DistinctIds(claims) && i < |claims| && IsEdge(view, claims[i])
    ensures KeyOf(merges, claims[i]) in EdgesOf(view, merges, claims)
    ensures EdgesOf(view, merges, claims)[KeyOf(merges, claims[i])] == claims[i]
  {
    if i < |claims| - 1 {
      var before := claims[..|claims| - 1];
      assert before[i] == claims[i];
      ClaimIsEdge(view, merges, before, i);
      assert KeyOf(merges, claims[i]).2 != claims[|claims| - 1].id;
    }
  }

  lemma AdmittedStep(view: View, claims: seq<Claim>, c: Claim)
    ensures Admitted(view, claims + [c]) == Admitted(view, claims) + if IsEdge(view, c) then {c} else {}
  {
  }

  lemma {:induction false} EdgesAreCounted(view: View, merges: map<Id, Id>, claims: seq<Claim>)
    requires DistinctIds(claims)
    ensures |EdgesOf(view, merges, claims)| == |Admitted(view, claims)|
  {
    if claims != [] {
      var before, c := claims[..|claims| - 1], claims[|claims| - 1];
      EdgesAreCounted(view, merges, before);
      assert claims == before + [c];
      AdmittedStep(view, before, c);
      forall i | 0 <= i < |before| ensures before[i].id != c.id {
        assert claims[i].id != claims[|claims| - 1].id;
      }
      assert c !in before;
      if IsEdge(view, c) && KeyOf(merges, c) in EdgesOf(view, merges, before) {
        EdgeIsClaim(view, merges, before, KeyOf(merges, c));
        assert false;
      }
    }
  }

  /** The edges are the admitted claims, one edge for each. */
  lemma EdgesAreAdmitted(view: View, merges: map<Id, Id>, claims: seq<Claim>)
    requires DistinctIds(claims)
    ensures EdgesOf(view, merges, claims).Values == Admitted(view, claims)
    ensures |EdgesOf(view, merges, claims)| == |Admitted(view, claims)|
  {
    var edges := EdgesOf(view, merges, claims);
    forall c ensures c in edges.Values <==> c in Admitted(view, claims) {
      if c in Admitted(view, claims) {
        var i :| 0 <= i < |claims| && claims[i] == c;
        ClaimIsEdge(view, merges, claims, i);
        assert KeyOf(merges, c) in edges;
      }
      if c in edges.Values {
        var key :| key in edges && edges[key] == c;
        EdgeIsClaim(view, merges, claims, key);
      }
    }
    EdgesAreCounted(view, merges, claims);
  }

  function Moved(merges: map<Id, Id>, key: EdgeKey): EdgeKey {
    (Rep(merges, key.0), Rep(merges, key.1), key.2)
  }

  /**
   Approving or reversing matches adds and drops no edge: under any two sets of merges the edges are the same claims.
  */
  lemma MergingKeepsEdges(view: View, claims: seq<Claim>, pairs: seq<Pair>, pairs': seq<Pair>)
    requires DistinctIds(claims)
    ensures EdgesOf(view, QuickFind(pairs), claims).Values == EdgesOf(view, QuickFind(pairs'), claims).Values
    ensures |EdgesOf(view, QuickFind(pairs), claims)| == |EdgesOf(view, QuickFind(pairs'), claims)|
  {
    EdgesAreAdmitted(view, QuickFind(pairs), claims);
    EdgesAreAdmitted(view, QuickFind(pairs'), claims);
  }

  /** The merged graph's edges are the unmerged graph's edges, moved to the representatives of their ends. */
  lemma MergingMovesEdges(view: View, claims: seq<Claim>, merges: map<Id, Id>, key: EdgeKey)
    requires DistinctIds(claims)
    ensures var apart, merged := EdgesOf(view, map[], claims), EdgesOf(view, merges, claims);
            && (key in apart ==> Moved(merges, key) in merged && merged[Moved(merges, key)] == apart[key])
            && (key in merged ==> exists k | k in apart :: apart[k] == merged[key] && key == Moved(merges, k))
  {
    var apart, merged := EdgesOf(view, map[], claims), EdgesOf(view, merges, claims);
    if key in apart {
      EdgeIsClaim(view, map[], claims, key);
      var i :| 0 <= i < |claims| && claims[i] == apart[key];
      ClaimIsEdge(view, merges, claims, i);
    }
    if key in merged {
      EdgeIsClaim(view, merges, claims, key);
      var i :| 0 <= i < |claims| && claims[i] == merged[key];
      ClaimIsEdge(view, map[], claims, i);
      assert key == Moved(merges, KeyOf(map[], claims[i]));
    }
  }

  /** The nodes are the classes of the demanded entities: two of them share a node if and only if approvals connect them. */
  lemma NodesAreClasses(view: View, claims: seq<Claim>, pairs: seq<Pair>, labels: map<Id, Label>, nodes: map<Id, Node>,
          x: Id, y: Id)
    requires NodesMatch(QuickFind(pairs), labels, Loaded(view, claims), Demanded(view, claims), nodes)
    requires x in Demanded(view, claims) && y in Demanded(view, claims)
    ensures Rep(QuickFind(pairs), x) in nodes && Rep(QuickFind(pairs), y) in nodes
    ensures Rep(QuickFind(pairs), x) == Rep(QuickFind(pairs), y) <==> Linked(pairs, x, y)
  {
    SameRepresentativeIffLinked(pairs, x, y);
    assert Stands(QuickFind(pairs), Demanded(view, claims), Rep(QuickFind(pairs), x));
    assert Stands(QuickFind(pairs), Demanded(view, claims), Rep(QuickFind(pairs), y));
  }

  /** A contradiction is flagged on a merged node if and only if it is flagged on one of the nodes merged into it. */
  lemma {:induction false} MergingKeepsFlags(view: View, claims: seq<Claim>, merges: map<Id, Id>, r: Id, id: Id)
    ensures id in FlaggedBy(view, merges, claims, r) <==> exists e :: Rep(merges, e) == r && id in FlaggedBy(view, map[], claims, e)
  {
    if claims != [] {
      var before, c := claims[..|claims| - 1], claims[|claims| - 1];
      MergingKeepsFlags(view, before, merges, r, id);
      if Flags(view, c) && c.id == id && Rep(merges, c.source) == r {
        assert Rep(map[], c.source) == c.source;
        assert id in FlaggedBy(view, map[], claims, c.source);
      }
      forall e | Rep(merges, e) == r && id in FlaggedBy(view, map[], before, e) ensures id in FlaggedBy(view, map[], claims, e) {
      }
    }
  }

  /** Every edge runs between nodes. */
  lemma {:induction false} EdgesHaveNodes(view: View, merges: map<Id, Id>, claims: seq<Claim>, key: EdgeKey)
    requires key in EdgesOf(view, merges, claims)
    ensures Stands(merges, Demanded(view, claims), key.0) && Stands(merges, Demanded(view, claims), key.1)
  {
    var before, c := claims[..|claims| - 1], claims[|claims| - 1];
    forall e | e in Demanded(view, before) || e in Demands(view, c) ensures e in Demanded(view, claims) {
    }
    if key in EdgesOf(view, merges, before) {
      EdgesHaveNodes(view, merges, before, key);
    } else {
      assert Demands(view, c)[0] == c.source && Demands(view, c)[1] == c.target.value;
    }
  }

  // ---------------------------------------------------------------- the graph in terms of the claims' columns

  /** Claims become edges exactly if they are in effect, in view and in time, and relate two entities. */
  lemma EdgesAreClaims(view: View, merges: map<Id, Id>, claims: seq<Claim>)
    requires DistinctIds(claims)
    ensures forall c :: c in EdgesOf(view, merges, claims).Values <==>
              (&& c in claims && c.kind == RELATIONSHIP && c.target.Some? && (c.state == ALLOWED || c.state == APPROVE)
               && (view.includeCase || (c.rel != APPEARS_IN && c.rel != NAMED_IN))
               && (c.time.None? || ((view.from.None? || view.from.value <= c.time.value) && (view.to.None? || c.time.value <= view.to.value))))
    ensures |EdgesOf(view, merges, claims)| == |EdgesOf(view, merges, claims).Values|
  {
    EdgesAreAdmitted(view, merges, claims);
  }

  /** A claim calls for a node of `e`: of its source, unless it relates two entities, and of both ends if it becomes an edge. */
  ghost predicate CallsFor(view: View, c: Claim, e: Id) {
    && (c.state == ALLOWED || c.state == APPROVE || c.state == CONTRADICTORY)
    && (view.includeCase || (c.rel != APPEARS_IN && c.rel != NAMED_IN))
    && if c.kind != RELATIONSHIP || c.target == None then e == c.source
       else && c.state != CONTRADICTORY && (e == c.source || c.target == Some(e))
            && (c.time.None? || ((view.from.None? || view.from.value <= c.time.value) && (view.to.None? || c.time.value <= view.to.value)))
  }

  lemma {:induction false} DemandedSpelledOut(view: View, claims: seq<Claim>, e: Id)
    ensures e in Demanded(view, claims) <==> exists c :: c in claims && CallsFor(view, c, e)
  {
    if claims != [] {
      var before, c := claims[..|claims| - 1], claims[|claims| - 1];
      DemandedSpelledOut(view, before, e);
      assert claims == before + [c];
      DemandsSpelledOut(view, c, e);
      if e in Demanded(view, before) {
        var d :| d in before && CallsFor(view, d, e);
        assert d in claims;
      }
    }
  }

  lemma DemandsSpelledOut(view: View, c: Claim, e: Id)
    ensures e in Demands(view, c) <==> CallsFor(view, c, e)
  {
  }

  /** A contradictory attribute claim about an entity of the class `r`, in view, whose id is `id`. */
  ghost predicate HasFlag(view: View, merges: map<Id, Id>, claims: seq<Claim>, r: Id, id: Id) {
    exists c :: && c in claims && c.kind == ATTRIBUTE && c.state == CONTRADICTORY && c.id == id && Rep(merges, c.source) == r
                && (view.includeCase || (c.rel != APPEARS_IN && c.rel != NAMED_IN))
  }

  lemma {:induction false} FlagsSpelledOut(view: View, merges: map<Id, Id>, claims: seq<Claim>, r: Id, id: Id)
    ensures id in FlaggedBy(view, merges, claims, r) <==> HasFlag(view, merges, claims, r, id)
  {
    if claims != [] {
      var before, c := claims[..|claims| - 1], claims[|claims| - 1];
      FlagsSpelledOut(view, merges, before, r, id);
      assert claims == before + [c];
    }
  }

  lemma FirstKept(merges: map<Id, Id>, demanded: seq<Id>, more: seq<Id>, r: Id)
    requires Stands(merges, demanded, r) && |more| <= 2
    ensures FirstOf(merges, demanded + more, r) == FirstOf(merges, demanded, r)
  {
    if |more| > 0 {
      FirstOfStep(merges, demanded, more[0], r);
      StandsStep(merges, demanded, more[0], r);
    }
    if |more| == 2 {
      FirstOfStep(merges, demanded + [more[0]], more[1], r);
      assert demanded + more == demanded + [more[0]] + [more[1]];
    } else {
      assert demanded + more == if |more| == 0 then demanded else demanded + [more[0]];
    }
  }

  lemma FirstNew(merges: map<Id, Id>, demanded: seq<Id>, more: seq<Id>, r: Id)
    requires !Stands(merges, demanded, r) && 0 < |more| <= 2 && Stands(merges, demanded + more, r)
    ensures FirstOf(merges, demanded + more, r) == if Rep(merges, more[0]) == r then more[0] else more[|more| - 1]
    ensures exists e :: e in more && Rep(merges, e) == r
  {
    FirstOfStep(merges, demanded, more[0], r);
    StandsStep(merges, demanded, more[0], r);
    if |more| == 2 {
      FirstOfStep(merges, demanded + [more[0]], more[1], r);
      StandsStep(merges, demanded + [more[0]], more[1], r);
      assert demanded + more == demanded + [more[0]] + [more[1]];
    } else {
      assert demanded + more == demanded + [more[0]];
    }
  }

  /** Claim `i` is the first that calls for an entity of the class `r`, and `e` is that entity, the source before the target. */
  ghost predicate FirstCall(view: View, merges: map<Id, Id>, claims: seq<Claim>, r: Id, i: nat, e: Id) {
    && i < |claims| && CallsFor(view, claims[i], e) && Rep(merges, e) == r
    && (Rep(merges, claims[i].source) == r ==> e == claims[i].source)
    && forall j, d | 0 <= j < i && CallsFor(view, claims[j], d) :: Rep(merges, d) != r
  }

  lemma NoCallBefore(view: View, merges: map<Id, Id>, claims: seq<Claim>, r: Id)
    requires !Stands(merges, Demanded(view, claims), r)
    ensures forall j, d | 0 <= j < |claims| && CallsFor(view, claims[j], d) :: Rep(merges, d) != r
  {
    forall j, d | 0 <= j < |claims| && CallsFor(view, claims[j], d) ensures Rep(merges, d) != r {
      DemandedSpelledOut(view, claims, d);
      assert claims[j] in claims;
    }
  }

  lemma CallStays(view: View, merges: map<Id, Id>, claims: seq<Claim>, c: Claim, r: Id, i: nat, e: Id)
    requires FirstCall(view, merges, claims, r, i, e)
    ensures FirstCall(view, merges, claims + [c], r, i, e)
  {
    forall j | 0 <= j <= i ensures (claims + [c])[j] == claims[j] {
    }
  }

  lemma {:induction false} FirstCaller(view: View, merges: map<Id, Id>, claims: seq<Claim>, r: Id) returns (i: nat)
    requires Stands(merges, Demanded(view, claims), r)
    ensures FirstCall(view, merges, claims, r, i, FirstOf(merges, Demanded(view, claims), r))
  {
    var before, c := claims[..|claims| - 1], claims[|claims| - 1];
    var demanded, more := Demanded(view, before), Demands(view, c);
    if Stands(merges, demanded, r) {
      i := FirstCaller(view, merges, before, r);
      FirstKept(merges, demanded, more, r);
      CallStays(view, merges, before, c, r, i, FirstOf(merges, demanded, r));
      assert claims == before + [c];
    } else {
      i := |before|;
      LastCalls(view, merges, claims, r);
    }
  }

  lemma LastCalls(view: View, merges: map<Id, Id>, claims: seq<Claim>, r: Id)
    requires claims != [] && Stands(merges, Demanded(view, claims), r) && !Stands(merges, Demanded(view, claims[..|claims| - 1]), r)
    ensures FirstCall(view, merges, claims, r, |claims| - 1, FirstOf(merges, Demanded(view, claims), r))
  {
    var before, c := claims[..|claims| - 1], claims[|claims| - 1];
    var first := FirstOf(merges, Demanded(view, claims), r);
    FirstNew(merges, Demanded(view, before), Demands(view, c), r);
    NoCallBefore(view, merges, before, r);
    DemandsSpelledOut(view, c, first);
    forall j, d | 0 <= j < |before| && CallsFor(view, claims[j], d) ensures Rep(merges, d) != r {
      assert before[j] == claims[j];
    }
  }

  /** An entity that a claim in view names, whether or not the claim is in time. */
  ghost predicate IsNamed(view: View, claims: seq<Claim>, r: Id) {
    exists c :: && c in claims && (c.source == r || c.target == Some(r))
                && (c.state == ALLOWED || c.state == APPROVE || c.state == CONTRADICTORY)
                && (view.includeCase || (c.rel != APPEARS_IN && c.rel != NAMED_IN))
  }

  ghost predicate IsCalled(view: View, merges: map<Id, Id>, claims: seq<Claim>, r: Id) {
    exists c, e :: c in claims && CallsFor(view, c, e) && Rep(merges, e) == r
  }

  /** `l` is the label of a called entity of the class `r` other than its representative. */
  ghost predicate LabelOfOther(view: View, merges: map<Id, Id>, labels: map<Id, Label>, claims: seq<Claim>, r: Id, l: Label) {
    exists c, e :: c in claims && CallsFor(view, c, e) && Rep(merges, e) == r && e != r && e in labels && labels[e] == l
  }

  /** A node bears the label of its representative, if a claim in view names it, and else that of the entity called first. */
  ghost predicate Titled(view: View, merges: map<Id, Id>, labels: map<Id, Label>, claims: seq<Claim>, r: Id, title: Label) {
    if IsNamed(view, claims, r) then r in labels && title == labels[r]
    else exists i, e :: FirstCall(view, merges, claims, r, i, e) && e in labels && title == labels[e]
  }

  /** What the columns of the claims say about nodes: where they stand, their names, the names merged into them and their flags. */
  ghost predicate NodesSpelledOut(view: View, merges: map<Id, Id>, labels: map<Id, Label>, claims: seq<Claim>,
          nodes: map<Id, Node>)
  {
    && (forall r :: r in nodes <==> IsCalled(view, merges, claims, r))
    && (forall r | r in nodes :: Titled(view, merges, labels, claims, r, nodes[r].title))
    && (forall r, l | r in nodes ::
          l in nodes[r].mergedFrom <==> l != nodes[r].title && LabelOfOther(view, merges, labels, claims, r, l))
    && (forall r, id | r in nodes :: id in nodes[r].contradictions <==> HasFlag(view, merges, claims, r, id))
  }

  lemma StandsSpelledOut(view: View, merges: map<Id, Id>, claims: seq<Claim>, r: Id)
    ensures Stands(merges, Demanded(view, claims), r) <==> IsCalled(view, merges, claims, r)
  {
    if Stands(merges, Demanded(view, claims), r) {
      var e :| e in Demanded(view, claims) && Rep(merges, e) == r;
      DemandedSpelledOut(view, claims, e);
    }
    if c, e :| c in claims && CallsFor(view, c, e) && Rep(merges, e) == r {
      DemandedSpelledOut(view, claims, e);
    }
  }

  lemma JoinedSpelledOut(view: View, merges: map<Id, Id>, labels: map<Id, Label>, claims: seq<Claim>, r: Id, l: Label)
    ensures Joined(merges, labels, Demanded(view, claims), r, l) <==> LabelOfOther(view, merges, labels, claims, r, l)
  {
    if Joined(merges, labels, Demanded(view, claims), r, l) {
      var e :| e in Demanded(view, claims) && Rep(merges, e) == r && e != r && e in labels && labels[e] == l;
      DemandedSpelledOut(view, claims, e);
    }
    if c, e :| c in claims && CallsFor(view, c, e) && Rep(merges, e) == r && e != r && e in labels && labels[e] == l {
      DemandedSpelledOut(view, claims, e);
    }
  }

  lemma TitleSpelledOut(view: View, merges: map<Id, Id>, labels: map<Id, Label>, claims: seq<Claim>, r: Id, n: Node)
    requires Stands(merges, Demanded(view, claims), r) && Named(merges, labels, Loaded(view, claims), Demanded(view, claims), r, n)
    ensures Titled(view, merges, labels, claims, r, n.title)
  {
    assert r in Loaded(view, claims) <==> IsNamed(view, claims, r);
    if r !in Loaded(view, claims) {
      var i := FirstCaller(view, merges, claims, r);
    }
  }

  lemma MeansInColumns(view: View, merges: map<Id, Id>, labels: map<Id, Label>, claims: seq<Claim>, nodes: map<Id, Node>)
    requires NodesMatch(merges, labels, Loaded(view, claims), Demanded(view, claims), nodes)
    requires FlagsMatch(view, merges, claims, nodes)
    ensures NodesSpelledOut(view, merges, labels, claims, nodes)
  {
    forall r ensures r in nodes <==> IsCalled(view, merges, claims, r) {
      StandsSpelledOut(view, merges, claims, r);
    }
    forall r, l | r in nodes
      ensures l in nodes[r].mergedFrom <==> l != nodes[r].title && LabelOfOther(view, merges, labels, claims, r, l)
    {
      JoinedSpelledOut(view, merges, labels, claims, r, l);
      assert Named(merges, labels, Loaded(view, claims), Demanded(view, claims), r, nodes[r]);
    }
    forall r, id | r in nodes ensures id in nodes[r].contradictions <==> HasFlag(view, merges, claims, r, id) {
      FlagsSpelledOut(view, merges, claims, r, id);
    }
    forall r | r in nodes ensures Titled(view, merges, labels, claims, r, nodes[r].title) {
      TitleSpelledOut(view, merges, labels, claims, r, nodes[r]);
    }
  }

  // ---------------------------------------------------------------- the whole build

  /**
   `build_projection` from the pairs of the APPROVE rows and the case's claims. Foreign keys guarantee a row for every
   entity a claim names, and claim ids are primary keys.
  */
  method BuildProjection(pairs: seq<Pair>, claims: seq<Claim>, labels: map<Id, Label>, view: View) returns (g: Graph)
    requires forall c | c in claims :: c.source in labels && (c.target.Some? ==> c.target.value in labels)
    ensures fresh(g) && g.Means(view, QuickFind(pairs), labels, Loaded(view, claims), claims)
    ensures NodesSpelledOut(view, QuickFind(pairs), labels, claims, g.nodes)
    ensures DistinctIds(claims) ==> forall c :: c in g.edges.Values <==>
              (&& c in claims && c.kind == RELATIONSHIP && c.target.Some? && (c.state == ALLOWED || c.state == APPROVE)
               && (view.includeCase || (c.rel != APPEARS_IN && c.rel != NAMED_IN))
               && (c.time.None? || ((view.from.None? || view.from.value <= c.time.value) && (view.to.None? || c.time.value <= view.to.value))))
    ensures forall k | k in g.edges :: var c, rep := g.edges[k], QuickFind(pairs);
              c.target.Some? && k == (Rep(rep, c.source), Rep(rep, c.target.value), c.id)
  {
    var merges := ApprovedMerges(pairs);
    var loaded := Loaded(view, claims);
    g := new Graph();
    AdmitAll(g, view, merges, labels, loaded, claims);
    MeansInColumns(view, merges, labels, claims, g.nodes);
    if DistinctIds(claims) {
      EdgesAreClaims(view, merges, claims);
    }
    forall k | k in g.edges ensures var c := g.edges[k];
              c.target.Some? && k == (Rep(merges, c.source), Rep(merges, c.target.value), c.id)
    {
      EdgeIsClaim(view, merges, claims, k);
    }
  }
}
