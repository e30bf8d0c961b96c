/**
 Merging approved matches (`approved_merges` of `graph.py`): union-find with path halving and unranked
 union, against a quick-find that relabels a whole class at every union.
*/
module UnionFind {
  type Id = nat
  type Pair = (Id, Id)

  // ---------------------------------------------------------------- the simple form

  /** Representatives by relabelling: every entity of b's class takes a's representative. */
  function Relabelled(rep: map<Id, Id>, a: Id, b: Id): (r: map<Id, Id>)
    ensures r.Keys == rep.Keys + {a, b}
  {
    var known := (map[a := a] + map[b := b]) + rep;
    Redirected(known, known[a], known[b])
  }

  /** Every entity represented by `rb` taken over by `ra`. */
  function Redirected(rep: map<Id, Id>, ra: Id, rb: Id): (r: map<Id, Id>)
    ensures r.Keys == rep.Keys
  {
    map x | x in rep :: if rep[x] == rb then ra else rep[x]
  }

  /** The representatives after all approved pairs, in order. */
  function QuickFind(pairs: seq<Pair>): map<Id, Id> {
    if pairs == [] then map[]
    else Relabelled(QuickFind(pairs[..|pairs| - 1]), pairs[|pairs| - 1].0, pairs[|pairs| - 1].1)
  }

  // ---------------------------------------------------------------- what the representatives mean

  /** `chain` leads from one end to the other over pairs, taken in either direction. */
  predicate IsChain(pairs: seq<Pair>, chain: seq<Id>) {
    chain != [] &&
    forall i :: 0 <= i < |chain| - 1 ==> (chain[i], chain[i + 1]) in pairs || (chain[i + 1], chain[i]) in pairs
  }

  ghost predicate Linked(pairs: seq<Pair>, x: Id, y: Id) {
    exists chain :: IsChain(pairs, chain) && chain[0] == x && chain[|chain| - 1] == y
  }

  predicate IsEnd(p: Pair, x: Id) { p.0 == x || p.1 == x }

  predicate IsEndpoint(pairs: seq<Pair>, x: Id) { exists p :: p in pairs && IsEnd(p, x) }

  lemma LinkedPair(pairs: seq<Pair>, p: Pair)
    requires p in pairs
    ensures Linked(pairs, p.0, p.1)
  {
    assert IsChain(pairs, [p.0, p.1]);
  }

  lemma LinkedSelf(pairs: seq<Pair>, x: Id)
    ensures Linked(pairs, x, x)
  {
    assert IsChain(pairs, [x]);
  }

  lemma LinkedTransitive(pairs: seq<Pair>, x: Id, y: Id, z: Id)
    requires Linked(pairs, x, y) && Linked(pairs, y, z)
    ensures Linked(pairs, x, z)
  {
    var c :| IsChain(pairs, c) && c[0] == x && c[|c| - 1] == y;
    var d :| IsChain(pairs, d) && d[0] == y && d[|d| - 1] == z;
    assert IsChain(pairs, c + d[1..]);
  }

  function Reversed(c: seq<Id>): (r: seq<Id>)
    ensures |r| == |c| && forall i :: 0 <= i < |c| ==> r[i] == c[|c| - 1 - i]
  {
    seq(|c|, i requires 0 <= i < |c| => c[|c| - 1 - i])
  }

  lemma LinkedSymmetric(pairs: seq<Pair>, x: Id, y: Id)
    requires Linked(pairs, x, y)
    ensures Linked(pairs, y, x)
  {
    var c :| IsChain(pairs, c) && c[0] == x && c[|c| - 1] == y;
    assert IsChain(pairs, Reversed(c));
  }

  lemma LinkedMore(pairs: seq<Pair>, more: seq<Pair>, x: Id, y: Id)
    requires Linked(pairs, x, y) && forall p :: p in pairs ==> p in more
    ensures Linked(more, x, y)
  {
    var c :| IsChain(pairs, c) && c[0] == x && c[|c| - 1] == y;
    assert IsChain(more, c);
  }

  /** Every entity is linked to its representative, which represents itself. */
  lemma {:induction false} LinkedToRepresentative(pairs: seq<Pair>, x: Id)
    requires x in QuickFind(pairs)
    ensures QuickFind(pairs)[x] in QuickFind(pairs)
    ensures Linked(pairs, x, QuickFind(pairs)[x])
    ensures QuickFind(pairs)[QuickFind(pairs)[x]] == QuickFind(pairs)[x]
  {
    var before, p := pairs[..|pairs| - 1], pairs[|pairs| - 1];
    var rep := QuickFind(before);
    var known := (map[p.0 := p.0] + map[p.1 := p.1]) + rep;
    forall e | e in known ensures known[e] in known && known[known[e]] == known[e] && Linked(pairs, e, known[e]) {
      if e in rep {
        LinkedToRepresentative(before, e);
        LinkedMore(before, pairs, e, known[e]);
      } else {
        LinkedSelf(pairs, e);
      }
    }
    if known[x] == known[p.1] {
      LinkedSymmetric(pairs, p.1, known[p.1]);
      LinkedTransitive(pairs, x, known[p.1], p.1);
      LinkedPair(pairs, p);
      LinkedSymmetric(pairs, p.0, p.1);
      LinkedTransitive(pairs, x, p.1, p.0);
      LinkedTransitive(pairs, x, p.0, known[p.0]);
    }
  }

  /** Exactly the entities of approved pairs have an entry. */
  lemma {:induction false} QuickFindKeys(pairs: seq<Pair>, x: Id)
    ensures x in QuickFind(pairs) <==> IsEndpoint(pairs, x)
  {
    if pairs != [] {
      QuickFindKeys(pairs[..|pairs| - 1], x);
      QuickFindGrows(pairs, x);
      EndpointGrows(pairs, x);
    }
  }

  lemma QuickFindGrows(pairs: seq<Pair>, x: Id)
    requires pairs != []
    ensures x in QuickFind(pairs) <==> x in QuickFind(pairs[..|pairs| - 1]) || IsEnd(pairs[|pairs| - 1], x)
  {
  }

  lemma EndpointGrows(pairs: seq<Pair>, x: Id)
    requires pairs != []
    ensures IsEndpoint(pairs, x) <==> IsEndpoint(pairs[..|pairs| - 1], x) || IsEnd(pairs[|pairs| - 1], x)
  {
    var before, p := pairs[..|pairs| - 1], pairs[|pairs| - 1];
    assert pairs == before + [p];
    if IsEndpoint(before, x) {
      var q :| q in before && IsEnd(q, x);
      assert q in pairs;
    }
    assert p in pairs;
  }

  /** Later pairs never separate what earlier ones joined. */
  lemma {:induction false} PairShares(pairs: seq<Pair>, i: nat)
    requires i < |pairs|
    ensures pairs[i].0 in QuickFind(pairs) && pairs[i].1 in QuickFind(pairs)
    ensures QuickFind(pairs)[pairs[i].0] == QuickFind(pairs)[pairs[i].1]
  {
    var before := pairs[..|pairs| - 1];
    if i < |before| {
      PairShares(before, i);
    }
  }

  /** The representative the projection uses; entities without an approved match stand for themselves. */
  function Rep(merges: map<Id, Id>, x: Id): Id {
    if x in merges then merges[x] else x
  }

  /** A pair hands the class of its second entity to the representative of its first. */
  lemma FirstEntityWins(pairs: seq<Pair>, a: Id, b: Id, x: Id)
    ensures var before, after := QuickFind(pairs), QuickFind(pairs + [(a, b)]);
            Rep(after, x) == if Rep(before, x) == Rep(before, b) then Rep(before, a) else Rep(before, x)
  {
    var more := pairs + [(a, b)];
    assert more[..|more| - 1] == pairs;
    if x !in QuickFind(pairs) {
      RepsAreKeys(pairs, a);
      RepsAreKeys(pairs, b);
    }
  }

  lemma RepsAreKeys(pairs: seq<Pair>, x: Id)
    ensures x in QuickFind(pairs) ==> Rep(QuickFind(pairs), x) in QuickFind(pairs)
  {
    if x in QuickFind(pairs) {
      LinkedToRepresentative(pairs, x);
    }
  }

  lemma {:induction false} ChainShares(pairs: seq<Pair>, chain: seq<Id>)
    requires IsChain(pairs, chain)
    ensures Rep(QuickFind(pairs), chain[0]) == Rep(QuickFind(pairs), chain[|chain| - 1])
  {
    if |chain| > 1 {
      var shorter, x, y := chain[..|chain| - 1], chain[|chain| - 2], chain[|chain| - 1];
      ChainShares(pairs, shorter);
      if (x, y) in pairs {
        var i :| 0 <= i < |pairs| && pairs[i] == (x, y);
        PairShares(pairs, i);
      } else {
        var i :| 0 <= i < |pairs| && pairs[i] == (y, x);
        PairShares(pairs, i);
      }
    }
  }

  /** Two entities have one representative if and only if a chain of approved pairs connects them. */
  lemma SameRepresentativeIffLinked(pairs: seq<Pair>, x: Id, y: Id)
    ensures Rep(QuickFind(pairs), x) == Rep(QuickFind(pairs), y) <==> Linked(pairs, x, y)
  {
    if Linked(pairs, x, y) {
      var c :| IsChain(pairs, c) && c[0] == x && c[|c| - 1] == y;
      ChainShares(pairs, c);
    }
    if Rep(QuickFind(pairs), x) == Rep(QuickFind(pairs), y) {
      LinkedToRep(pairs, x);
      LinkedToRep(pairs, y);
      LinkedSymmetric(pairs, y, Rep(QuickFind(pairs), y));
      LinkedTransitive(pairs, x, Rep(QuickFind(pairs), x), y);
    }
  }

  lemma LinkedToRep(pairs: seq<Pair>, x: Id)
    ensures Linked(pairs, x, Rep(QuickFind(pairs), x))
  {
    if x in QuickFind(pairs) {
      LinkedToRepresentative(pairs, x);
    } else {
      LinkedSelf(pairs, x);
    }
  }

  // ---------------------------------------------------------------- the parent map

  type Parents = map<Id, Id>

  /** The parent of `x` is an entry, and a step to it goes down in `level`. */
  ghost predicate Entry(parent: Parents, level: map<Id, nat>, x: Id) {
    x in parent && x in level && parent[x] in parent && parent[x] in level && (parent[x] != x ==> level[parent[x]] < level[x])
  }

  ghost predicate Forest(parent: Parents, level: map<Id, nat>) {
    level.Keys == parent.Keys && forall x {:trigger Entry(parent, level, x)} :: x in parent ==> Entry(parent, level, x)
  }

  ghost function RootOf(parent: Parents, level: map<Id, nat>, x: Id): (r: Id)
    requires Forest(parent, level) && x in parent
    ensures r in parent && parent[r] == r
    decreases level[x]
  {
    assert Entry(parent, level, x);
    if parent[x] == x then x else RootOf(parent, level, parent[x])
  }

  /** The roots of all entries: the quick-find map a forest stands for. */
  ghost function Roots(parent: Parents, level: map<Id, nat>): (r: map<Id, Id>)
    requires Forest(parent, level)
  {
    map x | x in parent :: RootOf(parent, level, x)
  }

  /** Pointing an entry at its grandparent keeps the forest. */
  lemma HalvingKeepsForest(parent: Parents, level: map<Id, nat>, x: Id)
    requires Forest(parent, level) && x in parent
    ensures parent[x] in parent && Forest(parent[x := parent[parent[x]]], level)
  {
    assert Entry(parent, level, x) && Entry(parent, level, parent[x]);
    forall y | y in parent ensures Entry(parent[x := parent[parent[x]]], level, y) {
      assert Entry(parent, level, y);
    }
  }

  /** It changes no root. */
  lemma {:induction false} HalvingKeepsRoot(parent: Parents, level: map<Id, nat>, x: Id, y: Id)
    requires Forest(parent, level) && x in parent && y in parent && parent[x] in parent
    requires Forest(parent[x := parent[parent[x]]], level)
    ensures RootOf(parent[x := parent[parent[x]]], level, y) == RootOf(parent, level, y)
    decreases level[y]
  {
    assert Entry(parent, level, y) && Entry(parent, level, parent[y]);
    var halved := parent[x := parent[parent[x]]];
    assert Entry(halved, level, y);
    if halved[y] != y {
      HalvingKeepsRoot(parent, level, x, halved[y]);
    }
  }

  lemma HalvingRoots(parent: Parents, level: map<Id, nat>, x: Id)
    requires Forest(parent, level) && x in parent
    ensures parent[x] in parent && Forest(parent[x := parent[parent[x]]], level)
    ensures Roots(parent[x := parent[parent[x]]], level) == Roots(parent, level)
  {
    HalvingKeepsForest(parent, level, x);
    forall y | y in parent ensures RootOf(parent[x := parent[parent[x]]], level, y) == RootOf(parent, level, y) {
      HalvingKeepsRoot(parent, level, x, y);
    }
  }

  lemma NewEntryKeepsForest(parent: Parents, level: map<Id, nat>, x: Id)
    requires Forest(parent, level) && x !in parent
    ensures Forest(parent[x := x], level[x := 0])
  {
    forall y | y in parent.Keys + {x} ensures Entry(parent[x := x], level[x := 0], y) {
      assert y != x ==> Entry(parent, level, y);
    }
    assert parent[x := x].Keys == parent.Keys + {x} && level[x := 0].Keys == level.Keys + {x};
  }

  /** A new entry is its own root and changes no other. */
  lemma {:induction false} NewEntryKeepsRoot(parent: Parents, level: map<Id, nat>, x: Id, y: Id)
    requires Forest(parent, level) && x !in parent && y in parent
    requires Forest(parent[x := x], level[x := 0])
    ensures RootOf(parent[x := x], level[x := 0], y) == RootOf(parent, level, y)
    decreases level[y]
  {
    assert Entry(parent, level, y);
    if parent[y] != y {
      NewEntryKeepsRoot(parent, level, x, parent[y]);
    }
  }

  lemma NewEntryRoots(parent: Parents, level: map<Id, nat>, e: Id)
    requires Forest(parent, level) && e !in parent
    ensures Forest(parent[e := e], level[e := 0])
    ensures Roots(parent[e := e], level[e := 0]) == map[e := e] + Roots(parent, level)
  {
    NewEntryKeepsForest(parent, level, e);
    forall y | y in parent ensures RootOf(parent[e := e], level[e := 0], y) == RootOf(parent, level, y) {
      NewEntryKeepsRoot(parent, level, e, y);
    }
  }

  /** Levels after hanging root `rb` under root `ra`: rb's whole tree moves above ra. */
  ghost function Raised(parent: Parents, level: map<Id, nat>, ra: Id, rb: Id): (l: map<Id, nat>)
    requires Forest(parent, level) && ra in parent
    ensures l.Keys == parent.Keys
  {
    map x | x in parent :: if RootOf(parent, level, x) == rb then level[x] + level[ra] + 1 else level[x]
  }

  lemma UnionKeepsEntry(parent: Parents, level: map<Id, nat>, ra: Id, rb: Id, l: map<Id, nat>, x: Id)
    requires Forest(parent, level) && ra in parent && rb in parent && x in parent
    requires parent[ra] == ra && parent[rb] == rb && ra != rb && l == Raised(parent, level, ra, rb)
    ensures Entry(parent[rb := ra], l, x)
  {
    assert Entry(parent, level, x);
    if x == rb {
      assert RootOf(parent, level, ra) == ra && RootOf(parent, level, rb) == rb;
    } else {
      assert RootOf(parent, level, x) == RootOf(parent, level, parent[x]);
    }
  }

  /** Hanging one root under another keeps the forest. */
  lemma UnionIsForest(parent: Parents, level: map<Id, nat>, ra: Id, rb: Id, p: Parents, l: map<Id, nat>)
    requires Forest(parent, level) && ra in parent && rb in parent
    requires parent[ra] == ra && parent[rb] == rb && ra != rb
    requires p == parent[rb := ra] && l == Raised(parent, level, ra, rb)
    ensures Forest(p, l)
  {
    assert p.Keys == parent.Keys == l.Keys;
    forall x | x in parent.Keys ensures Entry(p, l, x) {
      UnionKeepsEntry(parent, level, ra, rb, l, x);
    }
  }

  /** It hands exactly rb's tree to ra. */
  lemma {:induction false} UnionRoot(parent: Parents, level: map<Id, nat>, ra: Id, rb: Id, p: Parents, l: map<Id, nat>,
          y: Id)
    requires Forest(parent, level) && ra in parent && rb in parent && y in parent
    requires parent[ra] == ra && parent[rb] == rb && ra != rb
    requires p == parent[rb := ra] && Forest(p, l)
    ensures RootOf(p, l, y) == if RootOf(parent, level, y) == rb then ra else RootOf(parent, level, y)
    decreases level[y]
  {
    assert Entry(parent, level, y);
    if y == rb {
      assert RootOf(p, l, ra) == ra;
    } else if parent[y] != y {
      UnionRoot(parent, level, ra, rb, p, l, parent[y]);
      assert RootOf(p, l, y) == RootOf(p, l, parent[y]);
    }
  }

  lemma UnionRootsAt(parent: Parents, level: map<Id, nat>, ra: Id, rb: Id, p: Parents, l: map<Id, nat>, y: Id)
    requires Forest(parent, level) && ra in parent && rb in parent && y in parent
    requires parent[ra] == ra && parent[rb] == rb && ra != rb
    requires p == parent[rb := ra] && Forest(p, l)
    ensures y in p && Roots(p, l)[y] == Redirected(Roots(parent, level), ra, rb)[y]
  {
    UnionRoot(parent, level, ra, rb, p, l, y);
  }

  lemma UnionRoots(parent: Parents, level: map<Id, nat>, ra: Id, rb: Id, p: Parents, l: map<Id, nat>)
    requires Forest(parent, level) && ra in parent && rb in parent
    requires parent[ra] == ra && parent[rb] == rb && ra != rb
    requires p == parent[rb := ra] && Forest(p, l)
    ensures Roots(p, l) == Redirected(Roots(parent, level), ra, rb)
  {
    var after, expected := Roots(p, l), Redirected(Roots(parent, level), ra, rb);
    assert after.Keys == expected.Keys by { assert p.Keys == parent.Keys; }
    forall y | y in expected.Keys ensures after[y] == expected[y] {
      UnionRootsAt(parent, level, ra, rb, p, l, y);
    }
    MapsEqual(after, expected);
  }

  lemma MapsEqual(a: map<Id, Id>, b: map<Id, Id>)
    requires a.Keys == b.Keys && forall y | y in b.Keys :: a[y] == b[y]
    ensures a == b
  {
  }

  lemma UnionFacts(parent: Parents, level: map<Id, nat>, ra: Id, rb: Id) returns (l: map<Id, nat>)
    requires Forest(parent, level) && ra in parent && rb in parent
    requires parent[ra] == ra && parent[rb] == rb && ra != rb
    ensures Forest(parent[rb := ra], l) && Roots(parent[rb := ra], l) == Redirected(Roots(parent, level), ra, rb)
  {
    l := Raised(parent, level, ra, rb);
    UnionIsForest(parent, level, ra, rb, parent[rb := ra], l);
    UnionRoots(parent, level, ra, rb, parent[rb := ra], l);
  }

  /** Halving moves the search strictly closer to the same root. */
  lemma HalvingDescends(parent: Parents, level: map<Id, nat>, x: Id)
    requires Forest(parent, level) && x in parent && parent[x] != x
    ensures parent[x] in parent && parent[parent[x]] in parent
    ensures level[parent[parent[x]]] < level[x]
    ensures RootOf(parent, level, parent[parent[x]]) == RootOf(parent, level, x)
  {
    assert Entry(parent, level, x) && Entry(parent, level, parent[x]);
  }

  lemma RootIsRoot(parent: Parents, level: map<Id, nat>, x: Id)
    requires Forest(parent, level) && x in parent
    ensures var r := Roots(parent, level)[x]; r in parent && parent[r] == r
  {
  }

  // ---------------------------------------------------------------- the program

  class Merger {
    var parent: Parents
    ghost var level: map<Id, nat>

    ghost predicate Valid()
      reads this
    {
      Forest(parent, level)
    }

    constructor ()
      ensures Valid() && parent == map[]
    {
      parent, level := map[], map[];
    }

    /** Makes an entity its own root when it is first seen. */
    method SetDefault(x: Id)
      requires Valid()
      modifies this
      ensures Valid() && x in parent
      ensures Roots(parent, level) == map[x := x] + old(Roots(parent, level))
    {
      if x !in parent {
        NewEntryRoots(parent, level, x);
        parent, level := parent[x := x], level[x := 0];
      }
    }

    /** `find`: returns the root; path halving rewrites parents but moves no entry to another root. */
    method Find(e: Id) returns (root: Id)
      requires Valid()
      modifies this
      ensures Valid() && e in parent
      ensures Roots(parent, level) == map[e := e] + old(Roots(parent, level))
      ensures root == Roots(parent, level)[e]
    {
      SetDefault(e);
      ghost var roots := Roots(parent, level);
      var x: Id := e;
      while parent[x] != x
        invariant Valid() && x in parent && e in parent
        invariant Roots(parent, level) == roots && roots[x] == roots[e]
        decreases level[x]
      {
        HalvingRoots(parent, level, x);
        HalvingDescends(parent, level, x);
        parent := parent[x := parent[parent[x]]];
        x := parent[x];
      }
      root := x;
    }

    /** Hangs the second of two roots below the first. */
    method Hang(ra: Id, rb: Id)
      requires Valid() && ra in parent && rb in parent && parent[ra] == ra && parent[rb] == rb && ra != rb
      modifies this
      ensures Valid()
      ensures Roots(parent, level) == Redirected(old(Roots(parent, level)), ra, rb)
    {
      ghost var l := UnionFacts(parent, level, ra, rb);
      parent := parent[rb := ra];
      level := l;
    }

    /** Both roots. */
    method FindBoth(a: Id, b: Id) returns (ra: Id, rb: Id)
      requires Valid()
      modifies this
      ensures Valid() && Roots(parent, level) == (map[a := a] + map[b := b]) + old(Roots(parent, level))
      ensures ra == Roots(parent, level)[a] && rb == Roots(parent, level)[b]
      ensures ra in parent && rb in parent && parent[ra] == ra && parent[rb] == rb
    {
      ghost var before := Roots(parent, level);
      ra := Find(a);
      rb := Find(b);
      assert Roots(parent, level) == (map[a := a] + map[b := b]) + before;
      RootIsRoot(parent, level, a);
      RootIsRoot(parent, level, b);
    }

    /** One turn of the merge loop. */
    method Union(a: Id, b: Id)
      requires Valid()
      modifies this
      ensures Valid()
      ensures Roots(parent, level) == Relabelled(old(Roots(parent, level)), a, b)
    {
      var ra, rb := FindBoth(a, b);
      if ra != rb {
        Hang(ra, rb);
      }
    }
  }

  /** Looking an entry up again changes no representative. */
  method Lookup(m: Merger, x: Id, ghost roots: map<Id, Id>) returns (r: Id)
    requires m.Valid() && Roots(m.parent, m.level) == roots && x in roots
    modifies m
    ensures m.Valid() && Roots(m.parent, m.level) == roots && r == roots[x]
  {
    assert map[x := x] + roots == roots;
    r := m.Find(x);
  }

  /**
   `approved_merges` on the pairs of the APPROVE rows in the order the query returns them: the fast form
   computes exactly the representatives of the simple one.
  */
  method ApprovedMerges(pairs: seq<Pair>) returns (merges: map<Id, Id>)
    ensures merges == QuickFind(pairs)
  {
    var m := new Merger();
    for i := 0 to |pairs|
      invariant m.Valid() && Roots(m.parent, m.level) == QuickFind(pairs[..i])
      invariant fresh(m)
    {
      assert pairs[..i + 1][..i] == pairs[..i];
      m.Union(pairs[i].0, pairs[i].1);
    }
    assert pairs[..|pairs|] == pairs;
    merges := RepresentativesOf(m, QuickFind(pairs));
  }

  method RepresentativesOf(m: Merger, ghost roots: map<Id, Id>) returns (merges: map<Id, Id>)
    requires m.Valid() && Roots(m.parent, m.level) == roots
    modifies m
    ensures merges == roots
  {
    merges := map[];
    var left := m.parent.Keys;
    while left != {}
      invariant m.Valid() && Roots(m.parent, m.level) == roots
      invariant left <= roots.Keys && merges.Keys == roots.Keys - left
      invariant forall x | x in merges :: merges[x] == roots[x]
      decreases left
    {
      var x :| x in left;
      var r := Lookup(m, x, roots);
      merges, left := merges[x := r], left - {x};
    }
  }
}
