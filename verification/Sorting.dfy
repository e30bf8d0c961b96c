/** The stable sort by a key that several parts of the program call. */
module Sorting {
  predicate AscendingBy<T>(key: T -> int, s: seq<T>) {
    forall i, j | 0 <= i < j < |s| :: key(s[i]) <= key(s[j])
  }

  /** Puts `t` behind everything that is not greater. */
  function InsertBy<T>(key: T -> int, sorted: seq<T>, t: T): (r: seq<T>)
    requires AscendingBy(key, sorted)
    ensures AscendingBy(key, r) && multiset(r) == multiset(sorted) + multiset{t}
    ensures r != [] && (key(r[|r| - 1]) == key(t) || (sorted != [] && r[|r| - 1] == sorted[|sorted| - 1]))
  {
    if sorted == [] || key(sorted[|sorted| - 1]) <= key(t) then
      sorted + [t]
    else
      var init, last := sorted[..|sorted| - 1], sorted[|sorted| - 1];
      assert sorted == init + [last];
      var before := InsertBy(key, init, t);
      before + [last]
  }

  /** The list in ascending order of `key`, equal keys in their given order. */
  function SortBy<T>(key: T -> int, items: seq<T>): (sorted: seq<T>)
    ensures AscendingBy(key, sorted) && multiset(sorted) == multiset(items)
  {
    if items == [] then []
    else
      assert items == items[..|items| - 1] + [items[|items| - 1]];
      InsertBy(key, SortBy(key, items[..|items| - 1]), items[|items| - 1])
  }

  // ---------------------------------------------------------------- sets of ids

  predicate Increasing(s: seq<nat>) {
    forall i, j | 0 <= i < j < |s| :: s[i] < s[j]
  }

  predicate IsLeast(ids: set<nat>, least: nat) {
    least in ids && forall x | x in ids :: least <= x
  }

  lemma {:induction false} LeastExists(ids: set<nat>)
    requires ids != {}
    ensures exists least: nat :: IsLeast(ids, least)
  {
    var first: nat :| first in ids;
    var rest := ids - {first};
    assert ids == rest + {first};
    if rest == {} {
      assert IsLeast(ids, first);
    } else {
      LeastExists(rest);
      var other: nat :| IsLeast(rest, other);
      assert IsLeast(ids, if other < first then other else first);
    }
  }

  function Least(ids: set<nat>): (least: nat)
    requires ids != {}
    ensures IsLeast(ids, least)
  {
    LeastExists(ids);
    var least: nat :| least in ids && IsLeast(ids, least);
    least
  }

  /** `sorted` on a set of ids. */
  function Sorted(ids: set<nat>): (s: seq<nat>)
    ensures Increasing(s) && |s| == |ids| && forall x :: x in s <==> x in ids
  {
    if ids == {} then [] else [Least(ids)] + Sorted(ids - {Least(ids)})
  }
}
