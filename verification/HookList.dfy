/** The callback list and the filter list of a proxy user: append, and removal inside a running `range`. */
module HookList {
  import opened Slices

  /** The removal loop gets through: every occurrence of `x` leaves room for all of them behind it. */
  predicate Removable<T(==)>(list: seq<T>, x: T) {
    forall i :: 0 <= i < |list| && list[i] == x ==> i + multiset(list)[x] <= |list|
  }

  /** A list without `x` twice is always removable. */
  lemma AtMostOnceIsRemovable<T>(list: seq<T>, x: T)
    requires multiset(list)[x] <= 1
    ensures Removable(list, x)
  {
  }

  /** The same callback added twice in a row, and nothing behind it: the loop fails. */
  lemma TwiceIsNotRemovable<T>(x: T)
    ensures !Removable([x, x], x)
  {
    assert [x, x][1] == x && multiset([x, x])[x] == 2;
  }

  /** Occurrences of `x` before position `i`. */
  function Before<T(==)>(list: seq<T>, x: T, i: nat): nat
    requires i <= |list|
  {
    multiset(list[..i])[x]
  }

  lemma BeforeNext<T>(list: seq<T>, x: T, i: nat)
    requires i < |list|
    ensures Before(list, x, i + 1) == Before(list, x, i) + (if list[i] == x then 1 else 0)
    ensures Before(list, x, i + 1) <= multiset(list)[x]
  {
    assert list[..i + 1] == list[..i] + [list[i]];
    assert list == list[..i + 1] + list[i + 1..];
  }

  /** Position `k` after a removal: what was there stays, and the occurrences of `x`, from the front,
      are replaced by the last elements, from the back. */
  predicate Replaced<T(==)>(was: seq<T>, x: T, k: nat, now: T) {
    k < |was| && Before(was, x, k) < |was| ==>
      now == if was[k] != x then was[k] else was[|was| - 1 - Before(was, x, k)]
  }

  lemma {:induction false} BeforeIsFewer<T>(list: seq<T>, x: T, i: nat)
    requires i <= |list|
    ensures Before(list, x, i) <= i
  {
    if i > 0 {
      BeforeIsFewer(list, x, i - 1);
      BeforeNext(list, x, i - 1);
    }
  }

  /** The first `i` positions of `was` have been visited: their occurrences of `x` are gone, and the
      positions still to be read are as they were. */
  ghost predicate Visited<T>(was: seq<T>, x: T, i: nat, backing: seq<T>, length: nat) {
    && i <= |was| <= |backing| && length == |was| - Before(was, x, i)
    && (forall k :: i <= k < |was| ==> backing[k] == was[k])
    && (forall k :: 0 <= k < i && was[k] == x ==> k + Before(was, x, i) <= |was|)
  }

  ghost predicate Placed<T>(was: seq<T>, x: T, i: nat, backing: seq<T>, length: nat) {
    length <= |backing| && forall k: nat :: k < i && k < length ==> Replaced(was, x, k, backing[k])
  }

  ghost predicate Counted<T>(was: seq<T>, x: T, i: nat, backing: seq<T>, length: nat) {
    && i <= |was| && length <= |backing| && Before(was, x, i) <= multiset(was)[x]
    && multiset(backing[..length]) == multiset(was)[x := multiset(was)[x] - Before(was, x, i)]
  }

  ghost predicate Swept<T>(was: seq<T>, x: T, i: nat, backing: seq<T>, length: nat) {
    Visited(was, x, i, backing, length) && Placed(was, x, i, backing, length) && Counted(was, x, i, backing, length)
  }

  lemma SweepPasses<T>(was: seq<T>, x: T, i: nat, backing: seq<T>, length: nat)
    requires i < |was| && Swept(was, x, i, backing, length) && was[i] != x
    ensures Swept(was, x, i + 1, backing, length)
  {
    BeforeNext(was, x, i);
    BeforeIsFewer(was, x, i);
  }

  lemma SweepSwaps<T>(was: seq<T>, x: T, i: nat, backing: seq<T>, length: nat)
    requires i < |was| && Swept(was, x, i, backing, length) && was[i] == x && i < length
    ensures Swept(was, x, i + 1, backing[i := backing[length - 1]], length - 1)
  {
    BeforeNext(was, x, i);
    BeforeIsFewer(was, x, i);
    VisitedSwaps(was, x, i, backing, length);
    PlacedSwaps(was, x, i, backing, length);
    CountedSwaps(was, x, i, backing, length);
  }

  lemma VisitedSwaps<T>(was: seq<T>, x: T, i: nat, backing: seq<T>, length: nat)
    requires i < |was| && Visited(was, x, i, backing, length) && was[i] == x && i < length
    requires Before(was, x, i + 1) == Before(was, x, i) + 1
    ensures Visited(was, x, i + 1, backing[i := backing[length - 1]], length - 1)
  {
  }

  lemma PlacedSwaps<T>(was: seq<T>, x: T, i: nat, backing: seq<T>, length: nat)
    requires i < |was| && Visited(was, x, i, backing, length) && was[i] == x && i < length
    requires Placed(was, x, i, backing, length) && Before(was, x, i) <= i
    ensures Placed(was, x, i + 1, backing[i := backing[length - 1]], length - 1)
  {
  }

  lemma CountedSwaps<T>(was: seq<T>, x: T, i: nat, backing: seq<T>, length: nat)
    requires i < |was| <= |backing| && i < length && Counted(was, x, i, backing, length) && backing[i] == x
    requires Before(was, x, i + 1) == Before(was, x, i) + 1 <= multiset(was)[x]
    ensures Counted(was, x, i + 1, backing[i := backing[length - 1]], length - 1)
  {
    var list := backing[..length];
    assert backing[i := backing[length - 1]][..length - 1] == SwapOut(list, i);
    SwapOutTakesOne(list, i);
  }

  lemma SweepFails<T>(was: seq<T>, x: T, i: nat, backing: seq<T>, length: nat)
    requires i < |was| && Visited(was, x, i, backing, length) && was[i] == x && i >= length
    ensures !Removable(was, x)
  {
    BeforeNext(was, x, i);
  }

  lemma SweepStarts<T>(was: seq<T>, x: T, backing: seq<T>)
    requires |was| <= |backing| && was == backing[..|was|]
    ensures Swept(was, x, 0, backing, |was|)
  {
    assert was[..0] == [];
  }

  /** What it comes to when every position has been visited. */
  lemma SweepEnds<T>(was: seq<T>, x: T, backing: seq<T>, length: nat)
    requires Swept(was, x, |was|, backing, length)
    ensures Removable(was, x) && multiset(backing[..length]) == multiset(was)[x := 0]
    ensures length == |was| - multiset(was)[x]
    ensures forall k: nat :: k < length ==> Replaced(was, x, k, backing[k])
  {
    assert was[..|was|] == was;
  }

  class Hooks<T(==)> {
    /** The backing array; its first `length` elements are the list. */
    var backing: seq<T>
    var length: nat

    ghost predicate Valid()
      reads this
    {
      length <= |backing|
    }

    ghost function List(): seq<T>
      reads this
    {
      if length <= |backing| then backing[..length] else []
    }

    constructor ()
      ensures Valid() && List() == []
    {
      backing, length := [], 0;
    }

    method Add(x: T) returns (index: nat)
      requires Valid()
      modifies this
      ensures Valid() && List() == old(List()) + [x] && index == |old(List())|
    {
      backing := if length < |backing| then backing[length := x] else backing + [x];
      length := length + 1;
      index := length - 1;
    }

    /** `range` walks the captured header over the array that the body overwrites; there is no break.
        Stops short, as an index out of range does, exactly when the list is not Removable; otherwise
        every occurrence goes and nothing else, the other elements of the shorter list keep their
        places, and the gaps are filled from the back. */
    method Remove(x: T) returns (completed: bool)
      requires Valid()
      modifies this
      ensures Valid() && (completed <==> Removable(old(List()), x))
      ensures completed ==> multiset(List()) == multiset(old(List()))[x := 0]
      ensures completed ==> |List()| == |old(List())| - multiset(old(List()))[x]
      ensures completed ==> forall k: nat :: k < |List()| ==> Replaced(old(List()), x, k, List()[k])
    {
      var n := length;
      ghost var was := List();
      SweepStarts(was, x, backing);
      for i := 0 to n
        invariant Swept(was, x, i, backing, length)
      {
        if backing[i] != x {
          SweepPasses(was, x, i, backing, length);
        } else if i < length {
          SweepSwaps(was, x, i, backing, length);
          backing := backing[i := backing[length - 1]];
          length := length - 1;
        } else {
          SweepFails(was, x, i, backing, length);
          return false;
        }
      }
      SweepEnds(was, x, backing, length);
      completed := true;
    }
  }
}
