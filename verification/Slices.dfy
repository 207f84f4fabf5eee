/** Removing from a slice by overwriting with its last element. */
module Slices {
  function SwapOut<T>(list: seq<T>, i: nat): seq<T>
    requires i < |list|
  {
    list[i := list[|list| - 1]][..|list| - 1]
  }

  lemma Cancel<T>(a: multiset<T>, b: multiset<T>, x: T)
    requires a + multiset{x} == b + multiset{x}
    ensures a == b
  {
    forall c
      ensures a[c] == b[c]
    {
      assert (a + multiset{x})[c] == (b + multiset{x})[c];
    }
  }

  /** Swapping out position `i` takes away exactly one occurrence of what was there. */
  lemma SwapOutTakesOne<T>(list: seq<T>, i: nat)
    requires i < |list|
    ensures multiset(SwapOut(list, i)) == multiset(list) - multiset{list[i]}
  {
    var last := list[|list| - 1];
    var swapped := list[i := last];
    assert swapped == SwapOut(list, i) + [last];
    assert multiset(swapped) == multiset(list) - multiset{list[i]} + multiset{last};
    Cancel(multiset(SwapOut(list, i)), multiset(list) - multiset{list[i]}, last);
  }

  predicate Distinct<T(==)>(list: seq<T>) {
    forall i, j :: 0 <= i < j < |list| ==> list[i] != list[j]
  }

  /** Position of the first `x`, or the length. */
  function Find<T(==)>(list: seq<T>, x: T): (i: nat)
    ensures i <= |list|
    ensures i < |list| ==> list[i] == x
    ensures forall k :: 0 <= k < i ==> list[k] != x
  {
    if list == [] || list[0] == x then 0 else 1 + Find(list[1..], x)
  }

  /** The last element overwrites the first `x`; without an `x` nothing changes. */
  function SwapRemove<T(==)>(list: seq<T>, x: T): seq<T> {
    var i := Find(list, x);
    if i == |list| then list else SwapOut(list, i)
  }

  lemma SwapRemoveOfDistinct<T>(list: seq<T>, x: T)
    requires Distinct(list)
    ensures Distinct(SwapRemove(list, x))
    ensures forall c :: c in SwapRemove(list, x) <==> c in list && c != x
  {
    var r, i, n := SwapRemove(list, x), Find(list, x), |list|;
    if i < n {
      forall c
        ensures c in r <==> c in list && c != x
      {
        if c in r {
          var k :| 0 <= k < |r| && r[k] == c;
          assert list[if k == i then n - 1 else k] == c;
        }
        if c in list && c != x {
          var k :| 0 <= k < n && list[k] == c;
          assert r[if k == n - 1 then i else k] == c;
        }
      }
    }
  }
}
