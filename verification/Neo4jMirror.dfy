/**
 The shared graph index (`neo4j_store.py`): the reconciling write of one case's projection into a store that holds all
 cases, as successive writes inside one transaction.
*/
module Neo4jMirror {
  import opened Common

  type Id = nat
  type Case = nat

  /** The properties a write sets: kind, label and access class of a node, or all properties of a relation but its case. */
  type Properties = nat

  datatype Entity = Entity(properties: Properties, caseIds: seq<Case>)

  datatype NodeRow = NodeRow(id: Id, properties: Properties)

  /** Source, target and claim: what MERGE looks a relation up by. */
  type RelKey = (Id, Id, Id)

  datatype EdgeRow = EdgeRow(key: RelKey, properties: Properties)

  datatype Relation = Relation(owner: Case, properties: Properties)

  type Entities = map<Id, Entity>
  type Relations = map<RelKey, Relation>

  // ---------------------------------------------------------------- the four statements of the transaction

  function Without(cases: seq<Case>, c: Case): (r: seq<Case>)
    ensures c !in r && forall d | d != c :: d in r <==> d in cases
  {
    if cases == [] then []
    else
      assert cases == [cases[0]] + cases[1..];
      (if cases[0] == c then [] else [cases[0]]) + Without(cases[1..], c)
  }

  function Ids(nodes: seq<NodeRow>): set<Id> { set n | n in nodes :: n.id }

  function Dropped(entities: Entities, c: Case, ids: set<Id>): Entities {
    map e | e in entities ::
      if c in entities[e].caseIds && e !in ids then entities[e].(caseIds := Without(entities[e].caseIds, c)) else entities[e]
  }

  function MergedNode(entities: Entities, c: Case, n: NodeRow): Entities {
    var cases := if n.id in entities then entities[n.id].caseIds else [];
    entities[n.id := Entity(n.properties, if c in cases then cases else cases + [c])]
  }

  function MergedNodes(entities: Entities, c: Case, nodes: seq<NodeRow>): Entities {
    if nodes == [] then entities
    else MergedNode(MergedNodes(entities, c, nodes[..|nodes| - 1]), c, nodes[|nodes| - 1])
  }

  function Cleared(relations: Relations, c: Case): Relations {
    map k | k in relations && relations[k].owner != c :: relations[k]
  }

  /** MERGE by both ends and the claim; an edge without both ends matches nothing. */
  function MergedEdge(relations: Relations, entities: Entities, c: Case, e: EdgeRow): Relations {
    if e.key.0 in entities && e.key.1 in entities then relations[e.key := Relation(c, e.properties)] else relations
  }

  function MergedEdges(relations: Relations, entities: Entities, c: Case, edges: seq<EdgeRow>): Relations {
    if edges == [] then relations
    else MergedEdge(MergedEdges(relations, entities, c, edges[..|edges| - 1]), entities, c, edges[|edges| - 1])
  }

  function WrittenEntities(entities: Entities, c: Case, nodes: seq<NodeRow>): Entities {
    MergedNodes(Dropped(entities, c, Ids(nodes)), c, nodes)
  }

  function WrittenRelations(relations: Relations, entities: Entities, c: Case, nodes: seq<NodeRow>,
          edges: seq<EdgeRow>): Relations
  {
    MergedEdges(Cleared(relations, c), WrittenEntities(entities, c, nodes), c, edges)
  }

  // ---------------------------------------------------------------- what a case sees

  function Members(entities: Entities, c: Case): set<Id> {
    set e | e in entities && c in entities[e].caseIds
  }

  function RelationsOf(relations: Relations, c: Case): map<RelKey, Properties> {
    map k | k in relations && relations[k].owner == c :: relations[k].properties
  }

  /** The rows of a projection: one per node and per edge, with every edge between listed nodes. */
  predicate IsProjection(nodes: seq<NodeRow>, edges: seq<EdgeRow>) {
    && (forall i, j | 0 <= i < j < |nodes| :: nodes[i].id != nodes[j].id)
    && (forall i, j | 0 <= i < j < |edges| :: edges[i].key != edges[j].key)
    && (forall e | e in edges :: e.key.0 in Ids(nodes) && e.key.1 in Ids(nodes))
  }

  function Keys(edges: seq<EdgeRow>): set<RelKey> { set e | e in edges :: e.key }

  /** What the rows say, read as a dictionary. */
  function AsMap(edges: seq<EdgeRow>): map<RelKey, Properties> {
    if edges == [] then map[] else AsMap(edges[..|edges| - 1])[edges[|edges| - 1].key := edges[|edges| - 1].properties]
  }

  // ---------------------------------------------------------------- nodes

  lemma {:induction false} MergedNodesAt(entities: Entities, c: Case, nodes: seq<NodeRow>, e: Id)
    ensures var after := MergedNodes(entities, c, nodes);
            && (e in after <==> e in entities || e in Ids(nodes))
            && (e in after && e !in Ids(nodes) ==> after[e] == entities[e])
            && (e in Ids(nodes) ==>
                  var cases := if e in entities then entities[e].caseIds else [];
                  after[e].caseIds == (if c in cases then cases else cases + [c])
                  && exists n :: n in nodes && n.id == e && after[e].properties == n.properties)
  {
    if nodes != [] {
      var init, last := nodes[..|nodes| - 1], nodes[|nodes| - 1];
      MergedNodesAt(entities, c, init, e);
      assert nodes == init + [last];
      assert Ids(nodes) == Ids(init) + {last.id};
      forall n | n in init ensures n in nodes {
      }
      assert last in nodes;
    }
  }

  /** After a write the case's members are exactly the given nodes, and no other case gains or loses a member. */
  lemma MembersAreNodes(entities: Entities, c: Case, nodes: seq<NodeRow>, d: Case)
    ensures var after := WrittenEntities(entities, c, nodes);
            Members(after, d) == if d == c then Ids(nodes) else Members(entities, d)
  {
    var dropped := Dropped(entities, c, Ids(nodes));
    var after := WrittenEntities(entities, c, nodes);
    forall e ensures e in Members(after, d) <==> e in if d == c then Ids(nodes) else Members(entities, d) {
      MergedNodesAt(dropped, c, nodes, e);
    }
  }

  /** A write changes the properties of the listed nodes alone, to the listed ones, and deletes no entity. */
  lemma PropertiesFollow(entities: Entities, c: Case, nodes: seq<NodeRow>, e: Id)
    requires forall i, j | 0 <= i < j < |nodes| :: nodes[i].id != nodes[j].id
    ensures var after := WrittenEntities(entities, c, nodes);
            && (e in entities ==> e in after && (e !in Ids(nodes) ==> after[e].properties == entities[e].properties))
            && forall n | n in nodes && n.id == e :: e in after && after[e].properties == n.properties
  {
    MergedNodesAt(Dropped(entities, c, Ids(nodes)), c, nodes, e);
  }

  // ---------------------------------------------------------------- relations

  lemma {:induction false} MergedEdgesAt(relations: Relations, entities: Entities, c: Case, edges: seq<EdgeRow>,
          k: RelKey)
    requires forall e | e in edges :: e.key.0 in entities && e.key.1 in entities
    ensures var after := MergedEdges(relations, entities, c, edges);
            && (k in AsMap(edges) <==> k in Keys(edges))
            && (k in after <==> k in relations || k in Keys(edges))
            && (k in Keys(edges) ==> after[k] == Relation(c, AsMap(edges)[k]))
            && (k in after && k !in Keys(edges) ==> after[k] == relations[k])
  {
    if edges != [] {
      var init, last := edges[..|edges| - 1], edges[|edges| - 1];
      assert edges == init + [last];
      MergedEdgesAt(relations, entities, c, init, k);
      assert Keys(edges) == Keys(init) + {last.key};
    }
  }

  lemma EndsExist(entities: Entities, c: Case, nodes: seq<NodeRow>, edges: seq<EdgeRow>)
    requires IsProjection(nodes, edges)
    ensures forall e | e in edges :: e.key.0 in WrittenEntities(entities, c, nodes) && e.key.1 in WrittenEntities(entities, c, nodes)
  {
    forall e | e in edges ensures e.key.0 in WrittenEntities(entities, c, nodes) && e.key.1 in WrittenEntities(entities, c, nodes) {
      MergedNodesAt(Dropped(entities, c, Ids(nodes)), c, nodes, e.key.0);
      MergedNodesAt(Dropped(entities, c, Ids(nodes)), c, nodes, e.key.1);
    }
  }

  /**
   After a write the case's relations are exactly the given edges. Another case loses the relations whose ends and claim
   a written edge shares, for MERGE takes such a relation over, and keeps all others.
  */
  lemma RelationsAreEdges(relations: Relations, entities: Entities, c: Case, nodes: seq<NodeRow>, edges: seq<EdgeRow>,
          d: Case)
    requires IsProjection(nodes, edges)
    ensures RelationsOf(WrittenRelations(relations, entities, c, nodes, edges), d)
         == if d == c then AsMap(edges) else RelationsOf(relations, d) - Keys(edges)
  {
    EndsExist(entities, c, nodes, edges);
    var after := WrittenRelations(relations, entities, c, nodes, edges);
    var seen, due := RelationsOf(after, d), if d == c then AsMap(edges) else RelationsOf(relations, d) - Keys(edges);
    forall k ensures (k in seen <==> k in due) && (k in seen ==> seen[k] == due[k]) {
      MergedEdgesAt(Cleared(relations, c), WrittenEntities(entities, c, nodes), c, edges, k);
    }
  }

  /** Other cases keep their relations if and only if no written edge has the ends and the claim of one of them. */
  lemma OthersKeepRelations(relations: Relations, entities: Entities, c: Case, nodes: seq<NodeRow>, edges: seq<EdgeRow>)
    requires IsProjection(nodes, edges)
    ensures (forall d | d != c :: RelationsOf(WrittenRelations(relations, entities, c, nodes, edges), d) == RelationsOf(relations, d))
       <==> forall k | k in relations && k in Keys(edges) :: relations[k].owner == c
  {
    var after := WrittenRelations(relations, entities, c, nodes, edges);
    forall d | d != c ensures RelationsOf(after, d) == RelationsOf(relations, d) - Keys(edges) {
      RelationsAreEdges(relations, entities, c, nodes, edges, d);
    }
    if k :| k in relations && k in Keys(edges) && relations[k].owner != c {
      assert k in RelationsOf(relations, relations[k].owner);
      assert k !in RelationsOf(after, relations[k].owner);
    } else {
      forall d | d != c ensures RelationsOf(after, d) == RelationsOf(relations, d) {
        assert RelationsOf(relations, d) - Keys(edges) == RelationsOf(relations, d);
      }
    }
  }

  // ---------------------------------------------------------------- writing twice

  lemma {:induction false} PropertiesOfLast(entities: Entities, other: Entities, c: Case, nodes: seq<NodeRow>, e: Id)
    requires e in Ids(nodes)
    ensures e in MergedNodes(entities, c, nodes) && e in MergedNodes(other, c, nodes)
    ensures MergedNodes(entities, c, nodes)[e].properties == MergedNodes(other, c, nodes)[e].properties
  {
    var init, last := nodes[..|nodes| - 1], nodes[|nodes| - 1];
    assert nodes == init + [last];
    if last.id != e {
      PropertiesOfLast(entities, other, c, init, e);
    }
  }

  lemma EntityUnchanged(entities: Entities, c: Case, nodes: seq<NodeRow>, e: Id)
    ensures var once := WrittenEntities(entities, c, nodes);
            var twice := WrittenEntities(once, c, nodes);
            (e in twice <==> e in once) && (e in once ==> twice[e] == once[e])
  {
    var once := WrittenEntities(entities, c, nodes);
    MembersAreNodes(entities, c, nodes, c);
    assert e in once && c in once[e].caseIds ==> e in Members(once, c);
    MergedNodesAt(Dropped(entities, c, Ids(nodes)), c, nodes, e);
    MergedNodesAt(Dropped(once, c, Ids(nodes)), c, nodes, e);
    if e in Ids(nodes) {
      PropertiesOfLast(Dropped(entities, c, Ids(nodes)), Dropped(once, c, Ids(nodes)), c, nodes, e);
    }
  }

  /** A second write of the same projection changes nothing at all. */
  lemma SecondWriteChangesNothing(relations: Relations, entities: Entities, c: Case, nodes: seq<NodeRow>,
          edges: seq<EdgeRow>)
    requires IsProjection(nodes, edges)
    ensures var once, relationsOnce := WrittenEntities(entities, c, nodes), WrittenRelations(relations, entities, c, nodes, edges);
            && WrittenEntities(once, c, nodes) == once
            && WrittenRelations(relationsOnce, once, c, nodes, edges) == relationsOnce
  {
    var once, relationsOnce := WrittenEntities(entities, c, nodes), WrittenRelations(relations, entities, c, nodes, edges);
    forall e: Id ensures (e in WrittenEntities(once, c, nodes) <==> e in once) && (e in once ==> WrittenEntities(once, c, nodes)[e] == once[e]) {
      EntityUnchanged(entities, c, nodes, e);
    }
    assert WrittenEntities(once, c, nodes) == once;
    EndsExist(entities, c, nodes, edges);
    forall k: RelKey ensures (k in WrittenRelations(relationsOnce, once, c, nodes, edges) <==> k in relationsOnce)
                          && (k in relationsOnce ==> WrittenRelations(relationsOnce, once, c, nodes, edges)[k] == relationsOnce[k])
    {
      MergedEdgesAt(Cleared(relations, c), once, c, edges, k);
      MergedEdgesAt(Cleared(relationsOnce, c), once, c, edges, k);
    }
  }

  // ---------------------------------------------------------------- all cases over time

  datatype Write = Write(c: Case, nodes: seq<NodeRow>, edges: seq<EdgeRow>)

  datatype Store = Store(entities: Entities, relations: Relations)

  function Written(s: Store, w: Write): Store {
    Store(WrittenEntities(s.entities, w.c, w.nodes), WrittenRelations(s.relations, s.entities, w.c, w.nodes, w.edges))
  }

  function WrittenAll(s: Store, writes: seq<Write>): Store {
    if writes == [] then s else Written(WrittenAll(s, writes[..|writes| - 1]), writes[|writes| - 1])
  }

  /** A projection is built from the claims of its own case, and a claim belongs to one case. */
  predicate OfItsCase(w: Write, caseOf: Id -> Case) {
    IsProjection(w.nodes, w.edges) && forall e | e in w.edges :: caseOf(e.key.2) == w.c
  }

  predicate Owned(relations: Relations, caseOf: Id -> Case) {
    forall k | k in relations :: relations[k].owner == caseOf(k.2)
  }

  function LastWrite(writes: seq<Write>, c: Case): Option<Write> {
    if writes == [] then None
    else
      var last := writes[|writes| - 1];
      if last.c == c then Some(last) else LastWrite(writes[..|writes| - 1], c)
  }

  /** The store shows a case exactly the nodes and relations of its last write, or what it had when it was never written. */
  ghost predicate ShowsLast(before: Store, s: Store, c: Case, last: Option<Write>) {
    match last
    case Some(w) => Members(s.entities, c) == Ids(w.nodes) && RelationsOf(s.relations, c) == AsMap(w.edges)
    case None => Members(s.entities, c) == Members(before.entities, c) && RelationsOf(s.relations, c) == RelationsOf(before.relations, c)
  }

  lemma OwnedKept(s: Store, w: Write, caseOf: Id -> Case)
    requires Owned(s.relations, caseOf) && OfItsCase(w, caseOf)
    ensures Owned(Written(s, w).relations, caseOf)
  {
    EndsExist(s.entities, w.c, w.nodes, w.edges);
    var after := Written(s, w);
    forall k | k in after.relations ensures after.relations[k].owner == caseOf(k.2) {
      MergedEdgesAt(Cleared(s.relations, w.c), after.entities, w.c, w.edges, k);
    }
  }

  /** Claims of one case each, after any writes of any cases every case shows its own last write. */
  lemma {:induction false} EachCaseShowsItsLastWrite(s: Store, writes: seq<Write>, caseOf: Id -> Case, c: Case)
    requires Owned(s.relations, caseOf) && forall w | w in writes :: OfItsCase(w, caseOf)
    ensures Owned(WrittenAll(s, writes).relations, caseOf)
    ensures ShowsLast(s, WrittenAll(s, writes), c, LastWrite(writes, c))
  {
    if writes != [] {
      var w := writes[|writes| - 1];
      var earlier := WrittenAll(s, writes[..|writes| - 1]);
      EachCaseShowsItsLastWrite(s, writes[..|writes| - 1], caseOf, c);
      OwnedKept(earlier, w, caseOf);
      MembersAreNodes(earlier.entities, w.c, w.nodes, c);
      RelationsAreEdges(earlier.relations, earlier.entities, w.c, w.nodes, w.edges, c);
      OthersKeepRelations(earlier.relations, earlier.entities, w.c, w.nodes, w.edges);
    }
  }

  // ---------------------------------------------------------------- the program

  class Mirror {
    var entities: Entities
    var relations: Relations

    constructor ()
      ensures entities == map[] && relations == map[]
    {
      entities, relations := map[], map[];
    }

    /** First statement: the case leaves every entity that is not listed. */
    method DropMembership(c: Case, ids: set<Id>)
      modifies this`entities
      ensures entities == Dropped(old(entities), c, ids)
    {
      var left := entities.Keys;
      ghost var before := entities;
      while left != {}
        invariant entities.Keys == before.Keys && left <= before.Keys
        invariant forall e | e in before :: entities[e] == if e in left then before[e] else Dropped(before, c, ids)[e]
        decreases left
      {
        var e: Id :| e in left;
        if c in entities[e].caseIds && e !in ids {
          entities := entities[e := entities[e].(caseIds := Without(entities[e].caseIds, c))];
        }
        left := left - {e};
      }
    }

    /** Second statement: MERGE every listed node, set its properties and add the case if it is missing. */
    method MergeNodes(c: Case, nodes: seq<NodeRow>)
      modifies this`entities
      ensures entities == MergedNodes(old(entities), c, nodes)
    {
      for i := 0 to |nodes|
        invariant entities == MergedNodes(old(entities), c, nodes[..i])
      {
        assert nodes[..i + 1][..i] == nodes[..i];
        var n := nodes[i];
        assert [] + [c] == [c];
        if n.id !in entities {
          entities := entities[n.id := Entity(n.properties, [c])];
        } else {
          var cases := entities[n.id].caseIds;
          entities := entities[n.id := Entity(n.properties, if c !in cases then cases + [c] else cases)];
        }
      }
      assert nodes[..|nodes|] == nodes;
    }

    /** Third statement: the case's relations go. */
    method DeleteRelations(c: Case)
      modifies this`relations
      ensures relations == Cleared(old(relations), c)
    {
      relations := relations - set k | k in relations && relations[k].owner == c;
    }

    /** Fourth statement: MERGE every edge between entities that exist. */
    method MergeEdges(c: Case, edges: seq<EdgeRow>)
      modifies this`relations
      ensures relations == MergedEdges(old(relations), entities, c, edges)
    {
      for i := 0 to |edges|
        invariant relations == MergedEdges(old(relations), entities, c, edges[..i])
      {
        assert edges[..i + 1][..i] == edges[..i];
        var e := edges[i];
        if e.key.0 in entities && e.key.1 in entities {
          relations := relations[e.key := Relation(c, e.properties)];
        }
      }
      assert edges[..|edges|] == edges;
    }

    /** `_write_projection_tx`. */
    method WriteProjection(c: Case, nodes: seq<NodeRow>, edges: seq<EdgeRow>)
      modifies this
      ensures entities == WrittenEntities(old(entities), c, nodes)
      ensures relations == WrittenRelations(old(relations), old(entities), c, nodes, edges)
    {
      DropMembership(c, Ids(nodes));
      MergeNodes(c, nodes);
      DeleteRelations(c);
      MergeEdges(c, edges);
    }
  }
}
