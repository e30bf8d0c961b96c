/**
 The RFC 6962 tree of `integrity.py` over any leaf and node hash: roots, audit paths and the climb the
 verifier makes from a leaf. Nothing is assumed about the two hashes, so whatever would need collision
 resistance returns the two inputs that collide.
*/
module MerkleTree {
  const LEFT := "left"
  const RIGHT := "right"

  datatype Step<T> = Step(hash: T, position: string)

  // ---------------------------------------------------------------- powers of two and the split point

  function Pow2(e: nat): (p: nat)
    ensures p > e
    ensures e > 0 ==> p % 2 == 0
  {
    if e == 0 then 1 else 2 * Pow2(e - 1)
  }

  lemma {:induction false} Pow2Increasing(a: nat, b: nat)
    requires a < b
    ensures 2 * Pow2(a) <= Pow2(b)
  {
    if a + 1 < b {
      Pow2Increasing(a, b - 1);
    }
  }

  /** Largest power of two below `n`, and 1 when there is none. */
  function SplitPoint(n: int): (k: nat)
    ensures k >= 1
    ensures n >= 2 ==> k < n <= 2 * k
  {
    if n <= 2 then 1 else 2 * SplitPoint((n + 1) / 2)
  }

  /** The split point is a power of two, and the only one with `k < n <= 2k`. */
  lemma {:induction false} SplitPointUnique(n: int, e: nat)
    requires n >= 2
    requires Pow2(e) < n <= Pow2(e + 1)
    ensures SplitPoint(n) == Pow2(e)
  {
    if n > 2 {
      SplitPointUnique((n + 1) / 2, e - 1);
    }
  }

  lemma {:induction false} SplitPointIsPower(n: int) returns (e: nat)
    ensures SplitPoint(n) == Pow2(e)
  {
    if n <= 2 {
      e := 0;
    } else {
      e := SplitPointIsPower((n + 1) / 2);
      e := e + 1;
    }
  }

  method Split(n: int) returns (k: nat)
    ensures k == SplitPoint(n)
  {
    k := 1;
    ghost var e: nat := 0;
    while k * 2 < n
      invariant k == Pow2(e)
      invariant k == 1 || k < n
      decreases n - k
    {
      k := k * 2;
      e := e + 1;
    }
    if n >= 2 {
      SplitPointUnique(n, e);
    }
  }

  // ---------------------------------------------------------------- root, audit path, climb

  function Root<T(!new)>(leafOf: T -> T, node: (T, T) -> T, leaves: seq<T>): T
    requires leaves != []
    decreases |leaves|
  {
    if |leaves| == 1 then leafOf(leaves[0])
    else
      var k := SplitPoint(|leaves|);
      node(Root(leafOf, node, leaves[..k]), Root(leafOf, node, leaves[k..]))
  }

  /** RFC 6962, section 2.1.1, ordered from the leaf upwards. */
  function Path<T(!new)>(leafOf: T -> T, node: (T, T) -> T, m: nat, leaves: seq<T>): seq<Step<T>>
    requires m < |leaves|
    decreases |leaves|
  {
    if |leaves| == 1 then []
    else
      var k := SplitPoint(|leaves|);
      if m < k then Path(leafOf, node, m, leaves[..k]) + [Step(Root(leafOf, node, leaves[k..]), RIGHT)]
      else Path(leafOf, node, m - k, leaves[k..]) + [Step(Root(leafOf, node, leaves[..k]), LEFT)]
  }

  function Above<T>(node: (T, T) -> T, current: T, step: Step<T>): T {
    if step.position == LEFT then node(step.hash, current) else node(current, step.hash)
  }

  /** The value the verifier holds after all of `steps`. */
  function Climb<T>(node: (T, T) -> T, current: T, steps: seq<Step<T>>): T {
    if steps == [] then current
    else Above(node, Climb(node, current, steps[..|steps| - 1]), steps[|steps| - 1])
  }

  /** Two step lists the verifier cannot tell apart: any position other than "left" means right. */
  ghost predicate SameSteps<T>(a: seq<Step<T>>, b: seq<Step<T>>) {
    |a| == |b| &&
    forall k :: 0 <= k < |a| ==> a[k].hash == b[k].hash && (a[k].position == LEFT <==> b[k].position == LEFT)
  }

  lemma {:induction false} ClimbSame<T>(node: (T, T) -> T, current: T, a: seq<Step<T>>, b: seq<Step<T>>)
    requires SameSteps(a, b)
    ensures Climb(node, current, a) == Climb(node, current, b)
  {
    if a != [] {
      ClimbSame(node, current, a[..|a| - 1], b[..|b| - 1]);
    }
  }

  lemma SameStepsAppend<T>(a: seq<Step<T>>, b: seq<Step<T>>, s: Step<T>, t: Step<T>)
    requires SameSteps(a, b) && s.hash == t.hash && (s.position == LEFT <==> t.position == LEFT)
    ensures SameSteps(a + [s], b + [t])
  {
  }

  // ---------------------------------------------------------------- completeness and length

  /** A sibling on the left goes first, any other second. */
  lemma LastStep<T>(node: (T, T) -> T, current: T, steps: seq<Step<T>>, last: Step<T>)
    ensures Climb(node, current, []) == current
    ensures var below := Climb(node, current, steps);
            Climb(node, current, steps + [last]) == if last.position == "left" then node(last.hash, below) else node(below, last.hash)
  {
    assert (steps + [last])[..|steps|] == steps;
  }

  /** Every audit path leads from its leaf to the root. */
  lemma {:induction false} PathClimbs<T(!new)>(leafOf: T -> T, node: (T, T) -> T, m: nat, leaves: seq<T>)
    requires m < |leaves|
    ensures Climb(node, leafOf(leaves[m]), Path(leafOf, node, m, leaves)) == Root(leafOf, node, leaves)
    decreases |leaves|
  {
    if |leaves| > 1 {
      var k := SplitPoint(|leaves|);
      if m < k {
        PathClimbs(leafOf, node, m, leaves[..k]);
        LastStep(node, leafOf(leaves[m]), Path(leafOf, node, m, leaves[..k]), Step(Root(leafOf, node, leaves[k..]), RIGHT));
      } else {
        PathClimbs(leafOf, node, m - k, leaves[k..]);
        LastStep(node, leafOf(leaves[m]), Path(leafOf, node, m - k, leaves[k..]), Step(Root(leafOf, node, leaves[..k]), LEFT));
      }
    }
  }

  lemma SplitPointBelow(n: nat, d: nat)
    requires 1 < n <= Pow2(d)
    ensures d > 0 && SplitPoint(n) <= Pow2(d - 1) && n - SplitPoint(n) <= Pow2(d - 1)
  {
    var e := SplitPointIsPower(n);
    if e >= d {
      if e > d {
        Pow2Increasing(d, e);
      }
      assert false;
    }
    if e < d - 1 {
      Pow2Increasing(e, d - 1);
    }
  }

  /** A path is no longer than the depth `d` of any perfect tree with room for all leaves. */
  lemma {:induction false} PathLength<T(!new)>(leafOf: T -> T, node: (T, T) -> T, m: nat, leaves: seq<T>, d: nat)
    requires m < |leaves| <= Pow2(d)
    ensures |Path(leafOf, node, m, leaves)| <= d
    decreases |leaves|
  {
    if |leaves| > 1 {
      var k := SplitPoint(|leaves|);
      SplitPointBelow(|leaves|, d);
      if m < k {
        PathLength(leafOf, node, m, leaves[..k], d - 1);
      } else {
        PathLength(leafOf, node, m - k, leaves[k..], d - 1);
      }
    }
  }

  // ---------------------------------------------------------------- what is hashed where

  /** What a digest of the tree is the digest of. */
  datatype Input<T> = LeafInput(leaf: T) | NodeInput(left: T, right: T)

  function Image<T(!new)>(leafOf: T -> T, node: (T, T) -> T, input: Input<T>): T {
    match input
    case LeafInput(leaf) => leafOf(leaf)
    case NodeInput(left, right) => node(left, right)
  }

  /** The input of the last hash of a climb from `leaf`. */
  function LastInput<T(!new)>(leafOf: T -> T, node: (T, T) -> T, leaf: T, steps: seq<Step<T>>): (x: Input<T>)
    ensures Image(leafOf, node, x) == Climb(node, leafOf(leaf), steps)
  {
    if steps == [] then LeafInput(leaf)
    else
      var below := Climb(node, leafOf(leaf), steps[..|steps| - 1]);
      var s := steps[|steps| - 1];
      if s.position == LEFT then NodeInput(s.hash, below) else NodeInput(below, s.hash)
  }

  /** The input of the hash at the root of the tree over `leaves`. */
  function RootInput<T(!new)>(leafOf: T -> T, node: (T, T) -> T, leaves: seq<T>): (x: Input<T>)
    requires leaves != []
    ensures Image(leafOf, node, x) == Root(leafOf, node, leaves)
  {
    if |leaves| == 1 then LeafInput(leaves[0])
    else
      var k := SplitPoint(|leaves|);
      NodeInput(Root(leafOf, node, leaves[..k]), Root(leafOf, node, leaves[k..]))
  }

  /** `x` is hashed somewhere on a climb from a leaf: one of its children is a digest of the climb. */
  ghost predicate OnClimb<T(!new)>(leafOf: T -> T, node: (T, T) -> T, x: Input<T>) {
    x.NodeInput? ==> exists p :: Image(leafOf, node, p) == x.left || Image(leafOf, node, p) == x.right
  }

  /** `x` is hashed somewhere in a tree: both of its children are digests of the tree. */
  ghost predicate InTree<T(!new)>(leafOf: T -> T, node: (T, T) -> T, x: Input<T>) {
    x.NodeInput? ==> exists p, q :: Image(leafOf, node, p) == x.left && Image(leafOf, node, q) == x.right
  }

  lemma LastInputOnClimb<T(!new)>(leafOf: T -> T, node: (T, T) -> T, leaf: T, steps: seq<Step<T>>)
    ensures OnClimb(leafOf, node, LastInput(leafOf, node, leaf, steps))
  {
    if steps != [] {
      var p := LastInput(leafOf, node, leaf, steps[..|steps| - 1]);
      assert Image(leafOf, node, p) == Climb(node, leafOf(leaf), steps[..|steps| - 1]);
    }
  }

  lemma RootInputInTree<T(!new)>(leafOf: T -> T, node: (T, T) -> T, leaves: seq<T>)
    requires leaves != []
    ensures InTree(leafOf, node, RootInput(leafOf, node, leaves))
  {
    if |leaves| > 1 {
      var k := SplitPoint(|leaves|);
      var p, q := RootInput(leafOf, node, leaves[..k]), RootInput(leafOf, node, leaves[k..]);
      assert Image(leafOf, node, p) == Root(leafOf, node, leaves[..k]);
      assert Image(leafOf, node, q) == Root(leafOf, node, leaves[k..]);
    }
  }

  // ---------------------------------------------------------------- soundness of proofs

  /** What an accepted proof gives: the leaf it speaks about, or two inputs with one digest. */
  datatype Finding<T> = Index(i: nat) | Clash(x: Input<T>, y: Input<T>)

  ghost predicate Explains<T(!new)>(leafOf: T -> T, node: (T, T) -> T, leaves: seq<T>, leaf: T, siblings: seq<Step<T>>,
          f: Finding<T>)
  {
    match f
    case Index(i) => i < |leaves| && leaves[i] == leaf && SameSteps(siblings, Path(leafOf, node, i, leaves))
    case Clash(x, y) => x != y && Image(leafOf, node, x) == Image(leafOf, node, y) && OnClimb(leafOf, node, x) && InTree(leafOf, node, y)
  }

  /** Carries a finding about the half of the tree below `last` to the whole tree. */
  ghost function Lift<T(!new)>(leafOf: T -> T, node: (T, T) -> T, leaves: seq<T>, leaf: T, rest: seq<Step<T>>,
          last: Step<T>, f: Finding<T>): (g: Finding<T>)
    requires |leaves| > 1
    requires var k := SplitPoint(|leaves|);
             if last.position == LEFT
             then last.hash == Root(leafOf, node, leaves[..k]) && Explains(leafOf, node, leaves[k..], leaf, rest, f)
             else last.hash == Root(leafOf, node, leaves[k..]) && Explains(leafOf, node, leaves[..k], leaf, rest, f)
    ensures Explains(leafOf, node, leaves, leaf, rest + [last], g)
  {
    var k := SplitPoint(|leaves|);
    if f.Clash? then f
    else if last.position == LEFT then
      SameStepsAppend(rest, Path(leafOf, node, f.i, leaves[k..]), last, Step(last.hash, LEFT));
      Index(k + f.i)
    else
      SameStepsAppend(rest, Path(leafOf, node, f.i, leaves[..k]), last, Step(last.hash, RIGHT));
      f
  }

  /**
   Soundness: a climb that ends at the root of `leaves` follows the audit path of a leaf of the list,
   or the function returns two inputs with one digest.
  */
  ghost function Locate<T(!new)>(leafOf: T -> T, node: (T, T) -> T, leaves: seq<T>, leaf: T, siblings: seq<Step<T>>)
    : (f: Finding<T>)
    requires leaves != []
    requires Climb(node, leafOf(leaf), siblings) == Root(leafOf, node, leaves)
    ensures Explains(leafOf, node, leaves, leaf, siblings, f)
    decreases |leaves|
  {
    var x, y := LastInput(leafOf, node, leaf, siblings), RootInput(leafOf, node, leaves);
    if x != y then
      LastInputOnClimb(leafOf, node, leaf, siblings);
      RootInputInTree(leafOf, node, leaves);
      Clash(x, y)
    else if |leaves| == 1 then Index(0)
    else
      var k, rest, last := SplitPoint(|leaves|), siblings[..|siblings| - 1], siblings[|siblings| - 1];
      assert siblings == rest + [last];
      var f := Locate(leafOf, node, if last.position == LEFT then leaves[k..] else leaves[..k], leaf, rest);
      Lift(leafOf, node, leaves, leaf, rest, last, f)
  }

  // ---------------------------------------------------------------- binding

  datatype Binding<T> = Same | Forged(x: Input<T>, y: Input<T>)

  /** Two lists are equal, or here are two inputs of their trees with one digest. */
  ghost predicate Settles<T(!new)>(leafOf: T -> T, node: (T, T) -> T, a: seq<T>, b: seq<T>, f: Binding<T>) {
    match f
    case Same => a == b
    case Forged(x, y) => x != y && Image(leafOf, node, x) == Image(leafOf, node, y) && InTree(leafOf, node, x) && InTree(leafOf, node, y)
  }

  /** Lists of any two lengths with one root are equal, or the function returns two inputs with one digest. */
  ghost function Bind<T(!new)>(leafOf: T -> T, node: (T, T) -> T, a: seq<T>, b: seq<T>): (f: Binding<T>)
    requires a != [] && b != []
    requires Root(leafOf, node, a) == Root(leafOf, node, b)
    ensures Settles(leafOf, node, a, b, f)
    decreases |a|
  {
    var x, y := RootInput(leafOf, node, a), RootInput(leafOf, node, b);
    if x != y then
      RootInputInTree(leafOf, node, a);
      RootInputInTree(leafOf, node, b);
      Forged(x, y)
    else if |a| == 1 then Same
    else
      var j, k := SplitPoint(|a|), SplitPoint(|b|);
      assert a == a[..j] + a[j..] && b == b[..k] + b[k..];
      var left := Bind(leafOf, node, a[..j], b[..k]);
      if left.Forged? then left else Bind(leafOf, node, a[j..], b[k..])
  }
}
