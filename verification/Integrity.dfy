/**
 `integrity.py` on bytes: the two hash schemes, the offline verifier and the two entry points.

 SHA-256 is a parameter `h`; the only fact used about it is that a digest has 32 bytes. Hex strings are
 modelled by the bytes they denote.
*/
module Integrity {
  import opened MerkleTree
  import opened MerkleLegacy

  newtype byte = x: int | 0 <= x < 256
  type Bytes = seq<byte>
  type Digest = b: Bytes | |b| == 32 witness seq(32, _ => 0)
  type HashFn = Bytes -> Digest

  /** The construction tag stored with every anchor; `Other` is any tag the program does not know. */
  datatype Scheme = Rfc6962 | DupLastV0 | Other(name: string)

  datatype Result<+T> = Ok(value: T) | IndexError | ValueError

  function RfcLeaf(h: HashFn): Bytes -> Bytes { (leaf: Bytes) => h([0] + leaf) }

  function RfcNode(h: HashFn): (Bytes, Bytes) -> Bytes { (left: Bytes, right: Bytes) => h([1] + left + right) }

  function MerkleHash(h: HashFn): (Bytes, Bytes) -> Bytes { (left: Bytes, right: Bytes) => h(left + right) }

  // ---------------------------------------------------------------- the verifier

  datatype MerkleProof = MerkleProof(leafHash: Bytes, root: Bytes, siblings: seq<Step<Bytes>>, scheme: Scheme) {

    predicate Accepted(h: HashFn) {
      match scheme
      case Rfc6962 => Climb(RfcNode(h), RfcLeaf(h)(leafHash), siblings) == root
      case DupLastV0 => Climb(MerkleHash(h), leafHash, siblings) == root
      case Other(_) => false
    }

    method Verify(h: HashFn) returns (ok: bool)
      ensures ok == Accepted(h)
      ensures scheme == Rfc6962 ==> (ok <==> Climb(RfcNode(h), h([0] + leafHash), siblings) == root)
      ensures scheme == DupLastV0 ==> (ok <==> Climb(MerkleHash(h), leafHash, siblings) == root)
      ensures scheme.Other? ==> !ok
    {
      var current, combine;
      match scheme {
        case Rfc6962 => current, combine := RfcLeaf(h)(leafHash), RfcNode(h);
        case DupLastV0 => current, combine := leafHash, MerkleHash(h);
        case Other(_) => return false;
      }
      ghost var start := current;
      for i := 0 to |siblings|
        invariant current == Climb(combine, start, siblings[..i])
      {
        assert siblings[..i + 1] == siblings[..i] + [siblings[i]];
        var step := siblings[i];
        current := if step.position == LEFT then combine(step.hash, current) else combine(current, step.hash);
      }
      assert siblings[..|siblings|] == siblings;
      return current == root;
    }
  }

  // ---------------------------------------------------------------- entry points

  function RootOf(h: HashFn, leaves: seq<Bytes>, scheme: Scheme): Result<Bytes> {
    if leaves == [] then Ok(h([]))
    else match scheme
      case Rfc6962 => Ok(Root(RfcLeaf(h), RfcNode(h), leaves))
      case DupLastV0 => Ok(LegacyRoot(MerkleHash(h), leaves))
      case Other(_) => ValueError
  }

  /** Leaves and nodes are hashed behind different bytes. */
  lemma SmallRoots(h: HashFn, a: Bytes, b: Bytes)
    ensures RootOf(h, [], Rfc6962) == Ok(h([]))
    ensures RootOf(h, [a], Rfc6962) == Ok(h([0] + a))
    ensures RootOf(h, [a, b], Rfc6962) == Ok(h([1] + h([0] + a) + h([0] + b)))
  {
    var pair := [a, b];
    assert SplitPoint(2) == 1;
    assert pair[..1] == [a] && pair[1..] == [b];
    assert Root(RfcLeaf(h), RfcNode(h), [a]) == h([0] + a) && Root(RfcLeaf(h), RfcNode(h), [b]) == h([0] + b);
    assert Root(RfcLeaf(h), RfcNode(h), pair) == RfcNode(h)(h([0] + a), h([0] + b));
  }

  /** The older scheme hashes nodes alone, behind nothing. */
  lemma SmallLegacyRoots(h: HashFn, a: Bytes, b: Bytes)
    ensures RootOf(h, [], DupLastV0) == Ok(h([]))
    ensures RootOf(h, [a], DupLastV0) == Ok(a)
    ensures RootOf(h, [a, b], DupLastV0) == Ok(h(a + b))
  {
    var pair, node := [a, b], MerkleHash(h);
    assert PairUp(node, pair[2..]) == [];
    assert LevelAbove(node, pair) == [node(a, b)];
    assert LegacyRoot(node, pair) == LegacyRoot(node, [node(a, b)]);
  }

  method MerkleRoot(h: HashFn, leafHashes: seq<Bytes>, scheme: Scheme) returns (r: Result<Bytes>)
    ensures r == RootOf(h, leafHashes, scheme)
    ensures r == if leafHashes == [] then Ok(h([])) else if scheme == Rfc6962 then Ok(Root(RfcLeaf(h), RfcNode(h), leafHashes))
                 else if scheme == DupLastV0 then Ok(LegacyRoot(MerkleHash(h), leafHashes)) else ValueError
  {
    if leafHashes == [] {
      return Ok(h([]));
    }
    match scheme {
      case Rfc6962 => return Ok(Root(RfcLeaf(h), RfcNode(h), leafHashes));
      case DupLastV0 =>
        var root := ComputeLegacyRoot(MerkleHash(h), leafHashes);
        return Ok(root);
      case Other(_) => return ValueError;
    }
  }

  /**
   `merkle_proof`: the proof returned verifies against the root returned, for the leaf asked for, under
   both schemes; its length is at most the ceiling of log2 of the number of leaves, and exactly that
   under the older scheme.
  */
  method ProveInclusion(h: HashFn, leafHashes: seq<Bytes>, leafIndex: int, scheme: Scheme)
    returns (r: Result<MerkleProof>)
    ensures r.IndexError? <==> !(0 <= leafIndex < |leafHashes|)
    ensures r.ValueError? <==> 0 <= leafIndex < |leafHashes| && scheme.Other?
    ensures r.Ok? ==> && r.value.leafHash == leafHashes[leafIndex] && r.value.scheme == scheme
                      && Ok(r.value.root) == RootOf(h, leafHashes, scheme)
                      && r.value.Accepted(h)
                      && |r.value.siblings| <= Depth(|leafHashes|)
                      && (scheme == DupLastV0 ==> |r.value.siblings| == Depth(|leafHashes|))
  {
    if leafHashes == [] || leafIndex < 0 || leafIndex >= |leafHashes| {
      return IndexError;
    }
    var siblings;
    if scheme == Rfc6962 {
      siblings := Path(RfcLeaf(h), RfcNode(h), leafIndex, leafHashes);
      PathClimbs(RfcLeaf(h), RfcNode(h), leafIndex, leafHashes);
      PathLength(RfcLeaf(h), RfcNode(h), leafIndex, leafHashes, Depth(|leafHashes|));
    } else {
      siblings := ComputeLegacyPath(MerkleHash(h), leafHashes, leafIndex);
      LegacyPathClimbs(MerkleHash(h), leafHashes, leafIndex);
      LegacyPathLength(MerkleHash(h), leafHashes, leafIndex);
    }
    var root := MerkleRoot(h, leafHashes, scheme);
    if root.ValueError? {
      return ValueError;
    }
    return Ok(MerkleProof(leafHashes[leafIndex], root.value, siblings, scheme));
  }

  // ---------------------------------------------------------------- from tree inputs to bytes

  predicate Collision(h: HashFn, x: Bytes, y: Bytes) {
    x != y && h(x) == h(y)
  }

  /** The bytes the RFC scheme feeds to the hash. */
  function Encode(input: Input<Bytes>): Bytes {
    match input
    case LeafInput(leaf) => [0] + leaf
    case NodeInput(left, right) => [1] + left + right
  }

  /** Two node inputs with one digest-sized child each can be told apart by their bytes. */
  lemma NodeBytes(l: Bytes, r: Bytes, l': Bytes, r': Bytes)
    requires [1] + l + r == [1] + l' + r'
    requires |l| == |l'| || |r| == |r'|
    ensures l == l' && r == r'
  {
    var x, y := [1] + l + r, [1] + l' + r';
    assert |x| == 1 + |l| + |r| && |y| == 1 + |l'| + |r'|;
    assert x[1..1 + |l|] == l && y[1..1 + |l'|] == l';
    assert x[1 + |l|..] == r && y[1 + |l'|..] == r';
  }

  /**
   Of two inputs, one met on a climb and the other in a tree, the bytes fix the input: the first byte
   separates leaves from nodes, and a 32-byte child fixes where a node input is cut in two.
  */
  lemma EncodeInjective(h: HashFn, x: Input<Bytes>, y: Input<Bytes>)
    requires OnClimb(RfcLeaf(h), RfcNode(h), x) && InTree(RfcLeaf(h), RfcNode(h), y)
    requires Encode(x) == Encode(y)
    ensures x == y
  {
    assert Encode(x)[0] == Encode(y)[0];
    if x.LeafInput? {
      assert Encode(x)[1..] == x.leaf && Encode(y)[1..] == y.leaf;
    } else {
      var p :| Image(RfcLeaf(h), RfcNode(h), p) == x.left || Image(RfcLeaf(h), RfcNode(h), p) == x.right;
      var q, r :| Image(RfcLeaf(h), RfcNode(h), q) == y.left && Image(RfcLeaf(h), RfcNode(h), r) == y.right;
      NodeBytes(x.left, x.right, y.left, y.right);
    }
  }

  // ---------------------------------------------------------------- the theorems on bytes

  /** What an accepted proof speaks about: a leaf of the list, or two byte strings with one digest. */
  datatype Verdict = Leaf(i: nat) | Broken(x: Bytes, y: Bytes)

  /**
   Soundness: a proof the verifier accepts against the root of `leaves` names a leaf of the list and is
   its audit path, up to spelling, or the function returns a collision of `h`.
  */
  ghost function Trace(h: HashFn, leaves: seq<Bytes>, leaf: Bytes, siblings: seq<Step<Bytes>>): (v: Verdict)
    requires leaves != []
    requires MerkleProof(leaf, Root(RfcLeaf(h), RfcNode(h), leaves), siblings, Rfc6962).Accepted(h)
    ensures v.Leaf? ==> && v.i < |leaves| && leaves[v.i] == leaf
                        && SameSteps(siblings, Path(RfcLeaf(h), RfcNode(h), v.i, leaves))
    ensures v.Broken? ==> Collision(h, v.x, v.y)
  {
    match Locate(RfcLeaf(h), RfcNode(h), leaves, leaf, siblings)
    case Index(i) => Leaf(i)
    case Clash(x, y) =>
      assert Encode(x) != Encode(y) by { if Encode(x) == Encode(y) { EncodeInjective(h, x, y); } }
      Broken(Encode(x), Encode(y))
  }

  /** The verifier accepts exactly the audit paths, or `Trace` has broken the hash. */
  lemma ProofsExact(h: HashFn, leaves: seq<Bytes>, leaf: Bytes, siblings: seq<Step<Bytes>>)
    requires leaves != []
    ensures var p := MerkleProof(leaf, Root(RfcLeaf(h), RfcNode(h), leaves), siblings, Rfc6962);
            var audited := exists i: nat :: i < |leaves| && leaves[i] == leaf
                                         && SameSteps(siblings, Path(RfcLeaf(h), RfcNode(h), i, leaves));
            && (audited ==> p.Accepted(h))
            && (p.Accepted(h) ==> audited || Trace(h, leaves, leaf, siblings).Broken?)
  {
    if i: nat :| i < |leaves| && leaves[i] == leaf && SameSteps(siblings, Path(RfcLeaf(h), RfcNode(h), i, leaves)) {
      PathClimbs(RfcLeaf(h), RfcNode(h), i, leaves);
      ClimbSame(RfcNode(h), RfcLeaf(h)(leaf), siblings, Path(RfcLeaf(h), RfcNode(h), i, leaves));
    }
  }

  datatype Agreement = Equal | Colliding(x: Bytes, y: Bytes)

  /**
   Binding: two lists of any lengths, empty ones included, with one root are equal, or the function
   returns a collision of `h`.
  */
  ghost function Compare(h: HashFn, a: seq<Bytes>, b: seq<Bytes>): (r: Agreement)
    requires RootOf(h, a, Rfc6962) == RootOf(h, b, Rfc6962)
    ensures r.Equal? ==> a == b
    ensures r.Colliding? ==> Collision(h, r.x, r.y)
  {
    if a == [] && b == [] then Equal
    else if a == [] || b == [] then
      var some := RootInput(RfcLeaf(h), RfcNode(h), if a == [] then b else a);
      Colliding([], Encode(some))
    else match Bind(RfcLeaf(h), RfcNode(h), a, b)
      case Same => Equal
      case Forged(x, y) =>
        assert Encode(x) != Encode(y) by { if Encode(x) == Encode(y) { EncodeInjective(h, x, y); } }
        Colliding(Encode(x), Encode(y))
  }
}
