/** The stable insertion order behind Rust's `sort_by_key`. */
module Sorting {

  ghost predicate Sorted<T>(s: seq<T>, key: T -> int) {
    forall i, k :: 0 <= i < k < |s| ==> key(s[i]) <= key(s[k])
  }

  /** Insert after every entry whose key is no larger. */
  function Place<T>(s: seq<T>, x: T, key: T -> int): seq<T> {
    if s == [] || key(s[|s| - 1]) <= key(x) then s + [x]
    else Place(s[..|s| - 1], x, key) + [s[|s| - 1]]
  }

  function StableSort<T>(s: seq<T>, key: T -> int): seq<T> {
    if s == [] then [] else Place(StableSort(s[..|s| - 1], key), s[|s| - 1], key)
  }

  /** Where `Place` puts the new entry. */
  function Slot<T>(s: seq<T>, x: T, key: T -> int): (p: nat)
    ensures p <= |s|
    ensures p > 0 ==> key(s[p - 1]) <= key(x)
    ensures forall i :: p <= i < |s| ==> key(x) < key(s[i])
  {
    if s == [] || key(s[|s| - 1]) <= key(x) then |s| else Slot(s[..|s| - 1], x, key)
  }

  lemma {:induction false} PlaceAtSlot<T>(s: seq<T>, x: T, key: T -> int)
    ensures var p := Slot(s, x, key); Place(s, x, key) == s[..p] + [x] + s[p..]
  {
    if s == [] || key(s[|s| - 1]) <= key(x) {
    } else {
      var front, last := s[..|s| - 1], s[|s| - 1];
      PlaceAtSlot(front, x, key);
      var p := Slot(front, x, key);
      assert front[..p] == s[..p] && front[p..] + [last] == s[p..];
    }
  }

  lemma InsertSorted<T>(a: seq<T>, x: T, b: seq<T>, key: T -> int)
    requires Sorted(a + b, key)
    requires forall i :: 0 <= i < |a| ==> key(a[i]) <= key(x)
    requires forall i :: 0 <= i < |b| ==> key(x) <= key(b[i])
    ensures Sorted(a + [x] + b, key)
  {
    var ab, u := a + b, a + [x] + b;
    forall i, k | 0 <= i < k < |u|
      ensures key(u[i]) <= key(u[k])
    {
      if i != |a| && k != |a| {
        assert u[i] == ab[if i < |a| then i else i - 1] && u[k] == ab[if k < |a| then k else k - 1];
      }
    }
  }

  lemma PlaceSorted<T>(s: seq<T>, x: T, key: T -> int)
    requires Sorted(s, key)
    ensures Sorted(Place(s, x, key), key)
  {
    PlaceAtSlot(s, x, key);
    var p := Slot(s, x, key);
    forall i | 0 <= i < p
      ensures key(s[i]) <= key(x)
    {
      assert key(s[i]) <= key(s[p - 1]);
    }
    assert s[..p] + s[p..] == s;
    InsertSorted(s[..p], x, s[p..], key);
  }

  lemma {:induction false} StableSortSorted<T>(s: seq<T>, key: T -> int)
    ensures Sorted(StableSort(s, key), key)
  {
    if s != [] {
      StableSortSorted(s[..|s| - 1], key);
      PlaceSorted(StableSort(s[..|s| - 1], key), s[|s| - 1], key);
    }
  }

  lemma {:induction false} PlacePermutes<T>(s: seq<T>, x: T, key: T -> int)
    ensures multiset(Place(s, x, key)) == multiset(s) + multiset{x}
    ensures |Place(s, x, key)| == |s| + 1
  {
    if s == [] || key(s[|s| - 1]) <= key(x) {
    } else {
      PlacePermutes(s[..|s| - 1], x, key);
      assert s == s[..|s| - 1] + [s[|s| - 1]];
    }
  }

  lemma {:induction false} StableSortPermutes<T>(s: seq<T>, key: T -> int)
    ensures multiset(StableSort(s, key)) == multiset(s)
    ensures |StableSort(s, key)| == |s|
  {
    if s != [] {
      var front, last := s[..|s| - 1], s[|s| - 1];
      StableSortPermutes(front, key);
      PlacePermutes(StableSort(front, key), last, key);
      assert s == front + [last];
    }
  }

  ghost predicate Distinct<T>(s: seq<T>) {
    forall i, k :: 0 <= i < k < |s| ==> s[i] != s[k]
  }

  lemma {:induction false} DistinctMultiplicity<T>(s: seq<T>, x: T)
    requires Distinct(s)
    ensures multiset(s)[x] <= 1
  {
    if s != [] {
      var front, last := s[..|s| - 1], s[|s| - 1];
      DistinctMultiplicity(front, x);
      assert s == front + [last];
    }
  }

  lemma DistinctPermutes<T>(s: seq<T>, t: seq<T>)
    requires Distinct(s) && multiset(s) == multiset(t)
    ensures Distinct(t)
  {
    forall i, k | 0 <= i < k < |t|
      ensures t[i] != t[k]
    {
      DistinctMultiplicity(s, t[i]);
      assert t == t[..i] + [t[i]] + t[i + 1..k] + [t[k]] + t[k + 1..];
    }
  }

  lemma PermutationElements<T>(s: seq<T>, t: seq<T>, x: T)
    requires multiset(s) == multiset(t)
    ensures x in s <==> x in t
  {
    assert x in multiset(s) <==> x in multiset(t);
  }
}
