/**
 The older tree of `integrity.py` (tag "dup-last-v0"), over any node hash. Levels are hashed pairwise,
 a level of odd length first repeats its last node, and leaves are not hashed.
*/
module MerkleLegacy {
  import opened MerkleTree

  function HalfUp(n: nat): nat { (n + 1) / 2 }

  /** A level made even by repeating its last node. */
  function Evened<T>(level: seq<T>): (e: seq<T>)
    requires level != []
    ensures |e| == 2 * HalfUp(|level|)
  {
    if |level| % 2 == 1 then level + [level[|level| - 1]] else level
  }

  function PairUp<T>(node: (T, T) -> T, level: seq<T>): (up: seq<T>)
    requires |level| % 2 == 0
    ensures |up| == |level| / 2
  {
    if level == [] then [] else [node(level[0], level[1])] + PairUp(node, level[2..])
  }

  lemma {:induction false} PairUpAt<T>(node: (T, T) -> T, level: seq<T>, k: nat)
    requires |level| % 2 == 0 && k < |level| / 2
    ensures PairUp(node, level)[k] == node(level[2 * k], level[2 * k + 1])
  {
    if k > 0 {
      PairUpAt(node, level[2..], k - 1);
    }
  }

  lemma {:induction false} PairUpConcat<T>(node: (T, T) -> T, a: seq<T>, b: seq<T>)
    requires |a| % 2 == 0 && |b| % 2 == 0
    ensures PairUp(node, a + b) == PairUp(node, a) + PairUp(node, b)
  {
    if a == [] {
      assert a + b == b;
    } else {
      PairUpConcat(node, a[2..], b);
      var both := a + b;
      assert both[2..] == a[2..] + b;
      assert PairUp(node, both) == [node(both[0], both[1])] + PairUp(node, both[2..]);
    }
  }

  function LevelAbove<T>(node: (T, T) -> T, level: seq<T>): (up: seq<T>)
    requires level != []
    ensures |up| == HalfUp(|level|)
  {
    PairUp(node, Evened(level))
  }

  function LegacyRoot<T>(node: (T, T) -> T, level: seq<T>): T
    requires level != []
    decreases |level|
  {
    if |level| == 1 then level[0] else LegacyRoot(node, LevelAbove(node, level))
  }

  function Sibling<T>(level: seq<T>, i: nat): Step<T>
    requires i < |level|
  {
    if i % 2 == 0 then Step(Evened(level)[i + 1], RIGHT) else Step(Evened(level)[i - 1], LEFT)
  }

  function LegacyPath<T>(node: (T, T) -> T, level: seq<T>, i: nat): seq<Step<T>>
    requires i < |level|
    decreases |level|
  {
    if |level| == 1 then [] else [Sibling(level, i)] + LegacyPath(node, LevelAbove(node, level), i / 2)
  }

  // ---------------------------------------------------------------- the loops

  method HashPairs<T>(node: (T, T) -> T, level: seq<T>) returns (up: seq<T>)
    requires |level| % 2 == 0
    ensures up == PairUp(node, level)
  {
    up := [];
    var i := 0;
    while i < |level|
      invariant 0 <= i <= |level| && i % 2 == 0
      invariant up == PairUp(node, level[..i])
    {
      PairUpConcat(node, level[..i], level[i..i + 2]);
      assert level[..i + 2] == level[..i] + level[i..i + 2];
      up := up + [node(level[i], level[i + 1])];
      i := i + 2;
    }
    assert level[..|level|] == level;
  }

  method ComputeLegacyRoot<T>(node: (T, T) -> T, leafHashes: seq<T>) returns (root: T)
    requires leafHashes != []
    ensures root == LegacyRoot(node, leafHashes)
  {
    var level := leafHashes;
    while |level| > 1
      invariant level != []
      invariant LegacyRoot(node, level) == LegacyRoot(node, leafHashes)
      decreases |level|
    {
      ghost var below := level;
      if |level| % 2 == 1 {
        level := level + [level[|level| - 1]];
      }
      level := HashPairs(node, level);
      assert level == LevelAbove(node, below);
    }
    return level[0];
  }

  lemma PathStep<T>(node: (T, T) -> T, level: seq<T>, i: nat, up: seq<T>, done: seq<Step<T>>)
    requires 1 < |level| && i < |level| && up == LevelAbove(node, level)
    ensures (done + [Sibling(level, i)]) + LegacyPath(node, up, i / 2) == done + LegacyPath(node, level, i)
  {
  }

  /** One turn of the path loop: the sibling to record and the next level. */
  method PathTurn<T>(node: (T, T) -> T, below: seq<T>, idx: nat) returns (sibling: Step<T>, level: seq<T>)
    requires idx < |below|
    ensures sibling == Sibling(below, idx)
    ensures level == LevelAbove(node, below)
  {
    level := below;
    if |level| % 2 == 1 {
      level := level + [level[|level| - 1]];
    }
    if idx % 2 == 0 {
      sibling := Step(level[idx + 1], RIGHT);
    } else {
      sibling := Step(level[idx - 1], LEFT);
    }
    level := HashPairs(node, level);
  }

  method ComputeLegacyPath<T>(node: (T, T) -> T, leafHashes: seq<T>, leafIndex: nat) returns (siblings: seq<Step<T>>)
    requires leafIndex < |leafHashes|
    ensures siblings == LegacyPath(node, leafHashes, leafIndex)
  {
    var level, idx: nat := leafHashes, leafIndex;
    siblings := [];
    while |level| > 1
      invariant idx < |level|
      invariant siblings + LegacyPath(node, level, idx) == LegacyPath(node, leafHashes, leafIndex)
      decreases |level|
    {
      PathStep(node, level, idx, LevelAbove(node, level), siblings);
      var sibling, up := PathTurn(node, level, idx);
      siblings := siblings + [sibling];
      level, idx := up, idx / 2;
    }
  }

  // ---------------------------------------------------------------- proofs verify, with the exact length

  lemma {:induction false} ClimbPrepend<T>(node: (T, T) -> T, current: T, first: Step<T>, rest: seq<Step<T>>)
    ensures Climb(node, current, [first] + rest) == Climb(node, Above(node, current, first), rest)
  {
    if rest == [] {
      assert ([first] + rest)[..0] == [];
    } else {
      ClimbPrepend(node, current, first, rest[..|rest| - 1]);
      assert ([first] + rest)[..|rest|] == [first] + rest[..|rest| - 1];
    }
  }

  lemma SiblingAbove<T>(node: (T, T) -> T, level: seq<T>, i: nat)
    requires i < |level|
    ensures Above(node, level[i], Sibling(level, i)) == LevelAbove(node, level)[i / 2]
  {
    var j := i / 2;
    PairUpAt(node, Evened(level), j);
    if i % 2 == 0 {
      assert i == 2 * j;
    } else {
      assert i == 2 * j + 1;
    }
  }

  lemma {:induction false} LegacyPathClimbs<T>(node: (T, T) -> T, level: seq<T>, i: nat)
    requires i < |level|
    ensures Climb(node, level[i], LegacyPath(node, level, i)) == LegacyRoot(node, level)
    decreases |level|
  {
    if |level| > 1 {
      var up, j := LevelAbove(node, level), i / 2;
      SiblingAbove(node, level, i);
      LegacyPathClimbs(node, up, j);
      ClimbPrepend(node, level[i], Sibling(level, i), LegacyPath(node, up, j));
    }
  }

  /** Number of levels above a level of `n` nodes: the ceiling of log2 n. */
  function Depth(n: nat): (d: nat)
    requires n >= 1
    ensures n <= Pow2(d)
    ensures n > 1 ==> d > 0 && Pow2(d - 1) < n
  {
    if n == 1 then 0 else 1 + Depth(HalfUp(n))
  }

  lemma DepthOfHalf(n: nat)
    requires n > 1
    ensures Depth(n) == Depth(HalfUp(n)) + 1 && Pow2(Depth(n)) == 2 * Pow2(Depth(HalfUp(n)))
  {
  }

  lemma {:induction false} LegacyPathLength<T>(node: (T, T) -> T, level: seq<T>, i: nat)
    requires i < |level|
    ensures |LegacyPath(node, level, i)| == Depth(|level|)
    decreases |level|
  {
    if |level| > 1 {
      LegacyPathLength(node, LevelAbove(node, level), i / 2);
    }
  }

  /** An odd list and the list with its last leaf repeated have one root. */
  lemma OddRepeatsLast<T>(node: (T, T) -> T, leaves: seq<T>)
    requires |leaves| % 2 == 1 && |leaves| >= 3
    ensures LegacyRoot(node, leaves) == LegacyRoot(node, leaves + [leaves[|leaves| - 1]])
  {
    var more := leaves + [leaves[|leaves| - 1]];
    assert Evened(leaves) == more == Evened(more);
    assert LegacyRoot(node, leaves) == LegacyRoot(node, LevelAbove(node, leaves));
    assert LegacyRoot(node, more) == LegacyRoot(node, LevelAbove(node, more));
  }

  // ---------------------------------------------------------------- loop against recursion

  /** The perfect tree of depth `d`, top down. */
  function PerfectRoot<T>(node: (T, T) -> T, d: nat, leaves: seq<T>): T
    requires |leaves| == Pow2(d)
  {
    if d == 0 then leaves[0]
    else
      var half := Pow2(d - 1);
      node(PerfectRoot(node, d - 1, leaves[..half]), PerfectRoot(node, d - 1, leaves[half..]))
  }

  lemma PairUpHalves<T>(node: (T, T) -> T, leaves: seq<T>, half: nat)
    requires half % 2 == 0 && |leaves| == 2 * half
    ensures PairUp(node, leaves)[..half / 2] == PairUp(node, leaves[..half])
    ensures PairUp(node, leaves)[half / 2..] == PairUp(node, leaves[half..])
  {
    PairUpConcat(node, leaves[..half], leaves[half..]);
    assert leaves == leaves[..half] + leaves[half..];
  }

  lemma PerfectFromHalves<T>(node: (T, T) -> T, d: nat, leaves: seq<T>, left: seq<T>, right: seq<T>)
    requires d > 0 && |leaves| == Pow2(d) && left == leaves[..Pow2(d - 1)] && right == leaves[Pow2(d - 1)..]
    ensures PerfectRoot(node, d, leaves) == node(PerfectRoot(node, d - 1, left), PerfectRoot(node, d - 1, right))
  {
  }

  /** Hashing the bottom level first gives the same perfect tree. */
  lemma {:induction false} PerfectBottomUp<T>(node: (T, T) -> T, d: nat, leaves: seq<T>)
    requires d > 0 && |leaves| == Pow2(d)
    ensures PerfectRoot(node, d, leaves) == PerfectRoot(node, d - 1, PairUp(node, leaves))
  {
    if d > 1 {
      var half, up := Pow2(d - 1), PairUp(node, leaves);
      PairUpHalves(node, leaves, half);
      var left, right := leaves[..half], leaves[half..];
      PerfectBottomUp(node, d - 1, left);
      PerfectBottomUp(node, d - 1, right);
      PerfectFromHalves(node, d - 1, up, PairUp(node, left), PairUp(node, right));
    }
  }

  /**
   Which leaf of a list of `n` stands at place `i` of the perfect tree: repeating the last node of a
   level repeats the whole block of leaves below it.
  */
  function Slot(n: nat, i: nat): (s: nat)
    requires n >= 1
    ensures s < n
    decreases n
  {
    if n == 1 then 0
    else
      var s := 2 * Slot(HalfUp(n), i / 2) + i % 2;
      if s == n then n - 1 else s
  }

  function BlockPadded<T>(leaves: seq<T>): (p: seq<T>)
    requires leaves != []
    ensures |p| == Pow2(Depth(|leaves|))
    ensures forall i :: 0 <= i < |p| ==> p[i] == leaves[Slot(|leaves|, i)]
  {
    seq(Pow2(Depth(|leaves|)), i requires 0 <= i => leaves[Slot(|leaves|, i)])
  }

  lemma EvenedSlot<T>(leaves: seq<T>, k: nat)
    requires |leaves| > 1
    ensures var s := 2 * Slot(HalfUp(|leaves|), k);
            && leaves[Slot(|leaves|, 2 * k)] == Evened(leaves)[s]
            && leaves[Slot(|leaves|, 2 * k + 1)] == Evened(leaves)[s + 1]
  {
    assert 2 * k / 2 == k && (2 * k + 1) / 2 == k;
  }

  lemma PairAbovePadded<T>(node: (T, T) -> T, leaves: seq<T>, k: nat)
    requires |leaves| > 1 && 2 * k + 1 < Pow2(Depth(|leaves|))
    ensures PairUp(node, BlockPadded(leaves))[k] == node(leaves[Slot(|leaves|, 2 * k)], leaves[Slot(|leaves|, 2 * k + 1)])
  {
    PairUpAt(node, BlockPadded(leaves), k);
  }

  lemma PaddedAbovePair<T>(node: (T, T) -> T, leaves: seq<T>, k: nat)
    requires |leaves| > 1 && k < Pow2(Depth(HalfUp(|leaves|)))
    ensures var s := Slot(HalfUp(|leaves|), k);
            BlockPadded(LevelAbove(node, leaves))[k] == node(Evened(leaves)[2 * s], Evened(leaves)[2 * s + 1])
  {
    PairUpAt(node, Evened(leaves), Slot(HalfUp(|leaves|), k));
  }

  lemma PaddedLevelAbove<T>(node: (T, T) -> T, leaves: seq<T>)
    requires |leaves| > 1
    ensures PairUp(node, BlockPadded(leaves)) == BlockPadded(LevelAbove(node, leaves))
  {
    var p, q := PairUp(node, BlockPadded(leaves)), BlockPadded(LevelAbove(node, leaves));
    DepthOfHalf(|leaves|);
    forall k | 0 <= k < |q| ensures p[k] == q[k] {
      PairAbovePadded(node, leaves, k);
      EvenedSlot(leaves, k);
      PaddedAbovePair(node, leaves, k);
    }
  }

  /** The level-by-level root is the root of the perfect tree over the block-padded list. */
  lemma {:induction false} LegacyIsPerfect<T>(node: (T, T) -> T, leaves: seq<T>)
    requires leaves != []
    ensures LegacyRoot(node, leaves) == PerfectRoot(node, Depth(|leaves|), BlockPadded(leaves))
    decreases |leaves|
  {
    if |leaves| > 1 {
      LegacyIsPerfect(node, LevelAbove(node, leaves));
      PerfectBottomUp(node, Depth(|leaves|), BlockPadded(leaves));
      PaddedLevelAbove(node, leaves);
    }
  }

  // ---------------------------------------------------------------- when padding means repeating the last leaf

  function Clamped(n: nat, i: nat): nat
    requires n >= 1
  {
    if i < n then i else n - 1
  }

  /** The list padded to the next power of two with copies of its last leaf. */
  function LastPadded<T>(leaves: seq<T>): (p: seq<T>)
    requires leaves != []
    ensures |p| == Pow2(Depth(|leaves|))
    ensures forall i :: 0 <= i < |p| ==> p[i] == leaves[Clamped(|leaves|, i)]
  {
    seq(Pow2(Depth(|leaves|)), i requires 0 <= i => leaves[Clamped(|leaves|, i)])
  }

  /** Lengths at which every level that is still being padded is odd. */
  predicate OddUntilPerfect(n: nat)
    requires n >= 1
    decreases n
  {
    n == Pow2(Depth(n)) || (n % 2 == 1 && OddUntilPerfect(HalfUp(n)))
  }

  lemma {:induction false} SlotWithin(n: nat, i: nat)
    requires i < n
    ensures Slot(n, i) == i
    decreases n
  {
    if n > 1 {
      SlotWithin(HalfUp(n), i / 2);
    }
  }

  lemma SlotOfEven(h: nat, j: nat)
    requires h > 1
    ensures Slot(2 * h - 1, 2 * j) == 2 * Slot(h, j)
  {
    assert HalfUp(2 * h - 1) == h && 2 * j / 2 == j;
  }

  lemma DoubledClamp(h: nat, j: nat, s: nat)
    requires s < h && s != Clamped(h, j)
    ensures 2 * s != Clamped(2 * h - 1, 2 * j)
  {
  }

  lemma PlaceAfterEven(n: nat)
    requires n > 1 && n % 2 == 0
    ensures Slot(n, n) != n - 1
  {
  }

  lemma OddLength(n: nat) returns (h: nat)
    requires n > 1 && n % 2 == 1
    ensures h == HalfUp(n) && h > 1 && n == 2 * h - 1 && Pow2(Depth(n)) == 2 * Pow2(Depth(h))
  {
    h := HalfUp(n);
    DepthOfHalf(n);
  }

  /** Outside these lengths some place of the perfect tree is not filled with the last leaf. */
  lemma {:induction false} OtherSlot(n: nat) returns (i: nat)
    requires n >= 1 && !OddUntilPerfect(n)
    ensures i < Pow2(Depth(n)) && Slot(n, i) != Clamped(n, i)
    decreases n
  {
    if n % 2 == 0 {
      i := n;
      PlaceAfterEven(n);
    } else {
      var h := OddLength(n);
      var j := OtherSlot(h);
      i := 2 * j;
      SlotOfEven(h, j);
      DoubledClamp(h, j, Slot(h, j));
    }
  }

  lemma {:induction false} SlotIsClamped(n: nat, i: nat)
    requires n >= 1 && OddUntilPerfect(n) && i < Pow2(Depth(n))
    ensures Slot(n, i) == Clamped(n, i)
    decreases n
  {
    if i < n {
      SlotWithin(n, i);
    } else {
      var m, j := HalfUp(n), i / 2;
      assert n == 2 * m - 1 && n > 1;
      SlotIsClamped(m, j);
      assert Slot(m, j) == m - 1;
    }
  }

  lemma PaddingsAgree<T>(leaves: seq<T>)
    requires leaves != [] && OddUntilPerfect(|leaves|)
    ensures BlockPadded(leaves) == LastPadded(leaves)
  {
    forall i: nat | i < Pow2(Depth(|leaves|)) ensures Slot(|leaves|, i) == Clamped(|leaves|, i) {
      SlotIsClamped(|leaves|, i);
    }
  }

  /**
   "The legacy root is the perfect-tree root of the list padded with its last leaf" holds for lists of
   length `n` whatever the leaves are if and only if `OddUntilPerfect(n)`.
  */
  lemma LastPaddingExact(n: nat)
    requires n >= 1
    ensures OddUntilPerfect(n) <==> forall leaves: seq<nat> | |leaves| == n :: BlockPadded(leaves) == LastPadded(leaves)
  {
    if OddUntilPerfect(n) {
      forall leaves: seq<nat> | |leaves| == n ensures BlockPadded(leaves) == LastPadded(leaves) {
        PaddingsAgree(leaves);
      }
    } else {
      var i := OtherSlot(n);
      var leaves := seq(n, k requires 0 <= k => k);
      assert BlockPadded(leaves)[i] != LastPadded(leaves)[i];
    }
  }

  /** How many leaves are added to make the length a power of two. */
  function Padding(n: nat): nat
    requires n >= 1
  {
    Pow2(Depth(n)) - n
  }

  lemma PaddingOfOdd(n: nat)
    requires n > 1 && n % 2 == 1
    ensures Padding(n) == 2 * Padding(HalfUp(n)) + 1
  {
    DepthOfHalf(n);
  }

  lemma {:induction false} PaddingOneLess(n: nat) returns (b: nat)
    requires n >= 1 && OddUntilPerfect(n)
    ensures Padding(n) == Pow2(b) - 1
    decreases n
  {
    if n == Pow2(Depth(n)) {
      b := 0;
    } else {
      PaddingOfOdd(n);
      b := PaddingOneLess(HalfUp(n));
      b := b + 1;
    }
  }

  lemma {:induction false} OneLessIsOdd(n: nat, b: nat)
    requires n >= 1 && Padding(n) == Pow2(b) - 1
    ensures OddUntilPerfect(n)
    decreases n
  {
    if b > 0 {
      assert Pow2(b) == 2 * Pow2(b - 1);
      if n > 1 {
        DepthOfHalf(n);
        PaddingOfOdd(n);
        OneLessIsOdd(HalfUp(n), b - 1);
      }
    }
  }

  /** The lengths in closed form: the two paddings agree if and only if the number of added leaves is one less than a power of two. */
  lemma LastPaddingClosedForm(n: nat)
    requires n >= 1
    ensures OddUntilPerfect(n) <==> exists b: nat :: Padding(n) == Pow2(b) - 1
    ensures (forall leaves: seq<nat> | |leaves| == n :: BlockPadded(leaves) == LastPadded(leaves))
       <==> exists b: nat :: Padding(n) == Pow2(b) - 1
  {
    LastPaddingExact(n);
    if OddUntilPerfect(n) {
      var b := PaddingOneLess(n);
    }
    if b: nat :| Padding(n) == Pow2(b) - 1 {
      OneLessIsOdd(n, b);
    }
  }

  /** The least length at which it fails. */
  lemma SixIsLeast()
    ensures !OddUntilPerfect(6) && forall n: nat | 1 <= n < 6 :: OddUntilPerfect(n)
  {
    assert Depth(3) == 2 && Depth(6) == 3;
    forall n: nat | 1 <= n < 6 ensures OddUntilPerfect(n) {
      assert n == 1 || n == 2 || n == 3 || n == 4 || n == 5;
    }
  }

  /** With the legacy tree the claim about roots themselves, at such a length and for any leaves. */
  lemma LegacyIsLastPadded<T>(node: (T, T) -> T, leaves: seq<T>)
    requires leaves != [] && OddUntilPerfect(|leaves|)
    ensures LegacyRoot(node, leaves) == PerfectRoot(node, Depth(|leaves|), LastPadded(leaves))
  {
    LegacyIsPerfect(node, leaves);
    PaddingsAgree(leaves);
  }

  lemma SingleEqual<T>(a: seq<T>, b: seq<T>)
    requires |a| == |b| == 1 && a[0] == b[0]
    ensures a == b
  {
  }

  /** At any other length, leaves that differ make the roots differ, or two pairs of nodes share a digest. */
  lemma {:induction false} PerfectRootBinds<T>(node: (T, T) -> T, d: nat, a: seq<T>, b: seq<T>)
    returns (x: (T, T), y: (T, T))
    requires |a| == |b| == Pow2(d) && a != b
    requires PerfectRoot(node, d, a) == PerfectRoot(node, d, b)
    ensures x != y && node(x.0, x.1) == node(y.0, y.1)
  {
    if d == 0 {
      SingleEqual(a, b);
      assert false;
    }
    var half := Pow2(d - 1);
    x := (PerfectRoot(node, d - 1, a[..half]), PerfectRoot(node, d - 1, a[half..]));
    y := (PerfectRoot(node, d - 1, b[..half]), PerfectRoot(node, d - 1, b[half..]));
    if x == y {
      assert a == a[..half] + a[half..] && b == b[..half] + b[half..];
      if a[..half] != b[..half] {
        x, y := PerfectRootBinds(node, d - 1, a[..half], b[..half]);
      } else {
        x, y := PerfectRootBinds(node, d - 1, a[half..], b[half..]);
      }
    }
  }

  /** Whenever the two paddings of a list differ, equal roots would exhibit a collision of the node hash. */
  lemma LastPaddingFails<T>(node: (T, T) -> T, leaves: seq<T>) returns (x: (T, T), y: (T, T))
    requires leaves != [] && BlockPadded(leaves) != LastPadded(leaves)
    requires LegacyRoot(node, leaves) == PerfectRoot(node, Depth(|leaves|), LastPadded(leaves))
    ensures x != y && node(x.0, x.1) == node(y.0, y.1)
  {
    LegacyIsPerfect(node, leaves);
    x, y := PerfectRootBinds(node, Depth(|leaves|), BlockPadded(leaves), LastPadded(leaves));
  }
}
