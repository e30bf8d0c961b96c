/**
 The uncentred listing (`bounded_subgraph` without a centre, and the graph route): every request rewrites the index, reads
 one page of it or of the fallback order, and hands out the next offset.
*/
module Paging {
  import opened Common
  import opened Sorting
  import opened Neo4jMirror
  import Bounded

  // ---------------------------------------------------------------- pages

  function Slice(ranked: seq<Id>, offset: nat, limit: nat): seq<Id> {
    var from := if offset < |ranked| then offset else |ranked|;
    ranked[from..if from + limit < |ranked| then from + limit else |ranked|]
  }

  /** The answer of the route: the kept nodes and where to go on. */
  datatype Answer = Answer(keep: set<Id>, next: Option<nat>)

  /** The page of an order that starts at `offset`. */
  ghost predicate IsPage(ranked: seq<Id>, offset: nat, limit: nat, a: Answer) {
    && a.keep == AsSet(Slice(ranked, offset, limit)) && |a.keep| == |Slice(ranked, offset, limit)|
    && a.next == if offset + |a.keep| < |ranked| then Some(offset + |a.keep|) else None
  }

  /** The nodes at the places from `offset` on, as many as the limit allows and there are, and the place after them. */
  ghost predicate HoldsPlaces(ranked: seq<Id>, offset: nat, limit: nat, a: Answer) {
    && (forall x :: x in a.keep <==> exists i :: offset <= i < offset + limit && i < |ranked| && ranked[i] == x)
    && |a.keep| == (if |ranked| <= offset then 0 else if |ranked| < offset + limit then |ranked| - offset else limit)
    && a.next == if offset + limit < |ranked| then Some(offset + limit) else None
  }

  /** A deployment and a case as the route sees them; `byDegree` is the order used where no Neo4j is configured. */
  datatype Scene = Scene(c: Case, nodes: seq<NodeRow>, edges: seq<EdgeRow>, configured: bool, byDegree: seq<Id>,
          config: Bounded.Config)

  ghost predicate SceneOk(s: Scene) {
    IsProjection(s.nodes, s.edges) && Distinct(s.byDegree) && AsSet(s.byDegree) == Ids(s.nodes)
  }

  function OrderOf(s: Scene): seq<Id> { if s.configured then Sorted(Ids(s.nodes)) else s.byDegree }

  lemma OrderIsGood(s: Scene)
    requires SceneOk(s)
    ensures Distinct(OrderOf(s)) && AsSet(OrderOf(s)) == Ids(s.nodes)
  {
    if s.configured {
      assert forall x :: x in AsSet(OrderOf(s)) <==> x in Ids(s.nodes);
    }
  }

  lemma PageCount(ranked: seq<Id>, offset: nat, limit: nat)
    requires Distinct(ranked)
    ensures |AsSet(Slice(ranked, offset, limit))| == |Slice(ranked, offset, limit)|
    ensures AsSet(Slice(ranked, offset, limit)) <= AsSet(ranked)
  {
    DistinctCount(Slice(ranked, offset, limit));
  }

  lemma PageHoldsPlaces(ranked: seq<Id>, offset: nat, limit: nat, a: Answer)
    requires IsPage(ranked, offset, limit, a) && limit > 0
    ensures HoldsPlaces(ranked, offset, limit, a)
  {
    var page := Slice(ranked, offset, limit);
    forall i | offset <= i < offset + limit && i < |ranked| ensures ranked[i] in a.keep {
      assert page[i - offset] == ranked[i];
    }
    forall x | x in a.keep ensures exists i :: offset <= i < offset + limit && i < |ranked| && ranked[i] == x {
      var i :| 0 <= i < |page| && page[i] == x;
      assert ranked[offset + i] == x;
    }
  }

  method AnswerOf(ids: set<Id>, total: nat, offset: nat, ghost ranked: seq<Id>, ghost limit: nat) returns (a: Answer)
    requires Distinct(ranked) && ids == AsSet(Slice(ranked, offset, limit)) && total == |ranked|
    ensures IsPage(ranked, offset, limit, a)
  {
    PageCount(ranked, offset, limit);
    var truncated := offset + |ids| < total;
    return Answer(ids, if truncated then Some(offset + |ids|) else None);
  }

  /** The uncentred branch of `read_bounded`: one page of the case's members, and how many members there are. */
  method ReadPage(m: Mirror, c: Case, offset: nat, limit: nat) returns (ids: set<Id>, total: nat)
    ensures ids == AsSet(Slice(Sorted(Members(m.entities, c)), offset, limit))
    ensures total == |Members(m.entities, c)|
  {
    var members := Members(m.entities, c);
    ids, total := AsSet(Slice(Sorted(members), offset, limit)), |members|;
  }

  /** The write and the read against Neo4j. */
  method ServeFromIndex(m: Mirror, s: Scene, offset: nat, limit: nat) returns (ids: set<Id>, total: nat)
    modifies m
    ensures m.entities == WrittenEntities(old(m.entities), s.c, s.nodes)
    ensures m.relations == WrittenRelations(old(m.relations), old(m.entities), s.c, s.nodes, s.edges)
    ensures ids == AsSet(Slice(Sorted(Ids(s.nodes)), offset, limit)) && total == |Ids(s.nodes)|
  {
    MembersAreNodes(m.entities, s.c, s.nodes, s.c);
    m.WriteProjection(s.c, s.nodes, s.edges);
    ids, total := ReadPage(m, s.c, offset, limit);
  }

  /**
   One request. The write or the read may fail, and then the in-process projection answers; the page is the same either
   way, and a failed write leaves the index as it was.
  */
  method Serve(m: Mirror, s: Scene, writeFails: bool, readFails: bool, offset: nat, maxNodes: int) returns (a: Answer)
    requires SceneOk(s)
    modifies m
    ensures IsPage(OrderOf(s), offset, Bounded.NodeLimit(maxNodes, s.config), a)
    ensures HoldsPlaces(if s.configured then Sorted(Ids(s.nodes)) else s.byDegree, offset, Bounded.NodeLimit(maxNodes, s.config), a)
    ensures !s.configured || writeFails ==> m.entities == old(m.entities) && m.relations == old(m.relations)
    ensures s.configured && !writeFails ==>
              && m.entities == WrittenEntities(old(m.entities), s.c, s.nodes)
              && m.relations == WrittenRelations(old(m.relations), old(m.entities), s.c, s.nodes, s.edges)
  {
    var limit := Bounded.NodeLimit(maxNodes, s.config);
    OrderIsGood(s);
    if s.configured && !writeFails {
      var ids, total := ServeFromIndex(m, s, offset, limit);
      if !readFails && ids <= Ids(s.nodes) {
        a := AnswerOf(ids, total, offset, OrderOf(s), limit);
        PageHoldsPlaces(OrderOf(s), offset, limit, a);
        return;
      }
    }
    var ranked := if s.configured then Sorted(Ids(s.nodes)) else s.byDegree;
    a := AnswerOf(AsSet(Slice(ranked, offset, limit)), |ranked|, offset, OrderOf(s), limit);
    PageHoldsPlaces(OrderOf(s), offset, limit, a);
  }

  // ---------------------------------------------------------------- following next_offset

  /** Answers from offset `from` on, each asked where the one before said, until one says there is no more. */
  ghost predicate Followed(ranked: seq<Id>, from: nat, answers: seq<Answer>, limits: seq<nat>)
    decreases |answers|
  {
    && |limits| == |answers| && answers != []
    && limits[0] >= 5 && IsPage(ranked, from, limits[0], answers[0])
    && match answers[0].next
       case None => |answers| == 1
       case Some(offset) => |answers| > 1 && Followed(ranked, offset, answers[1..], limits[1..])
  }

  predicate InSome(answers: seq<Answer>, x: Id) { exists i :: 0 <= i < |answers| && x in answers[i].keep }

  lemma FirstOrRest(answers: seq<Answer>, x: Id)
    requires answers != []
    ensures InSome(answers, x) <==> x in answers[0].keep || InSome(answers[1..], x)
  {
    if InSome(answers[1..], x) {
      var i :| 0 <= i < |answers[1..]| && x in answers[1..][i].keep;
      assert x in answers[i + 1].keep;
    }
    if i :| 0 < i < |answers| && x in answers[i].keep {
      assert x in answers[1..][i - 1].keep;
    }
  }

  /** Each node of the order from `from` on is in exactly one answer. */
  lemma {:induction false} EachOnce(ranked: seq<Id>, from: nat, answers: seq<Answer>, limits: seq<nat>)
    requires Distinct(ranked) && from <= |ranked| && Followed(ranked, from, answers, limits)
    ensures forall x :: x in ranked[from..] <==> InSome(answers, x)
    ensures forall i, j | 0 <= i < j < |answers| :: answers[i].keep !! answers[j].keep
    decreases |answers|
  {
    var page := Slice(ranked, from, limits[0]);
    var rest := ranked[from + |page|..];
    assert ranked[from..] == page + rest;
    assert forall x | x in page :: x !in rest;
    if answers[0].next.Some? {
      EachOnce(ranked, from + |page|, answers[1..], limits[1..]);
      assert forall i | 0 < i < |answers| :: answers[i] == answers[1..][i - 1];
    } else {
      assert rest == [];
    }
    forall x ensures x in ranked[from..] <==> InSome(answers, x) {
      assert x in ranked[from..] <==> x in page || x in rest;
      FirstOrRest(answers, x);
    }
  }

  /**
   Following the next offset from 0 lists each node of the projection exactly once, whatever page sizes are asked for and
   whichever source answers each request.
  */
  lemma ListsEachNodeOnce(s: Scene, answers: seq<Answer>, limits: seq<nat>)
    requires SceneOk(s) && Followed(OrderOf(s), 0, answers, limits)
    ensures forall x :: x in Ids(s.nodes) <==> InSome(answers, x)
    ensures forall i, j | 0 <= i < j < |answers| :: answers[i].keep !! answers[j].keep
  {
    OrderIsGood(s);
    EachOnce(OrderOf(s), 0, answers, limits);
    assert OrderOf(s)[0..] == OrderOf(s);
  }

  /** A client that follows the next offset through any mix of failures comes to the end. */
  method FollowAll(m: Mirror, s: Scene, writeFails: nat -> bool, readFails: nat -> bool, maxNodes: nat -> int)
    returns (answers: seq<Answer>)
    requires SceneOk(s)
    modifies m
    ensures forall x :: x in Ids(s.nodes) <==> InSome(answers, x)
    ensures forall i, j | 0 <= i < j < |answers| :: answers[i].keep !! answers[j].keep
  {
    ghost var limits: seq<nat>;
    answers, limits := FollowFrom(m, s, writeFails, readFails, maxNodes, 0);
    ListsEachNodeOnce(s, answers, limits);
  }

  method FollowFrom(m: Mirror, s: Scene, writeFails: nat -> bool, readFails: nat -> bool, maxNodes: nat -> int,
          offset: nat)
    returns (answers: seq<Answer>, ghost limits: seq<nat>)
    requires SceneOk(s) && offset <= |OrderOf(s)|
    modifies m
    ensures Followed(OrderOf(s), offset, answers, limits)
    decreases |OrderOf(s)| - offset
  {
    var a := Serve(m, s, writeFails(offset), readFails(offset), offset, maxNodes(offset));
    ghost var limit: nat := Bounded.NodeLimit(maxNodes(offset), s.config);
    answers, limits := [a], [limit];
    if a.next.Some? {
      var more;
      ghost var moreLimits;
      more, moreLimits := FollowFrom(m, s, writeFails, readFails, maxNodes, a.next.value);
      assert ([a] + more)[1..] == more && ([limit] + moreLimits)[1..] == moreLimits;
      answers, limits := [a] + more, [limit] + moreLimits;
    }
  }
}
