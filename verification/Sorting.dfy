/** What the sorting algorithms share: exchanging two elements, orders, and elements whose equal keys can be told apart. */
module Sorting {
  import opened Seqs

  function Swapped<T>(s: seq<T>, i: nat, j: nat): (r: seq<T>)
    requires i < |s| && j < |s|
    ensures |r| == |s|
  {
    s[i := s[j]][j := s[i]]
  }

  lemma SwappedMultiset<T>(s: seq<T>, i: nat, j: nat)
    requires i < |s| && j < |s|
    ensures multiset(Swapped(s, i, j)) == multiset(s)
  {
  }

  /** Writing x to the hole at i, with the element of j moved into the hole at i first, is an exchange. */
  lemma HoleMoved<T>(s: seq<T>, i: nat, j: nat, x: T)
    requires i < |s| && j < |s| && i != j
    ensures s[i := s[j]][j := x] == Swapped(s[i := x], i, j) == Swapped(s[i := x], j, i)
  {
  }

  predicate Ascending(s: seq<int>) {
    forall i, j :: 0 <= i < j < |s| ==> s[i] <= s[j]
  }

  predicate Descending(s: seq<int>) {
    forall i, j :: 0 <= i < j < |s| ==> s[i] >= s[j]
  }

  // ---- Elements with keys ----

  /** An element with the key that is compared and an identity that is not, so that the order of equal keys shows. */
  datatype Element = Element(key: int, id: int)

  predicate AscendingKeys(s: seq<Element>) {
    forall i, j :: 0 <= i < j < |s| ==> s[i].key <= s[j].key
  }

  /** The elements of one key, in order. */
  function OfKey(s: seq<Element>, k: int): (r: seq<Element>)
    ensures |r| <= |s|
  {
    if |s| == 0 then [] else (if s[0].key == k then [s[0]] else []) + OfKey(s[1..], k)
  }

  lemma {:induction false} OfKeyConcat(s: seq<Element>, t: seq<Element>, k: int)
    ensures OfKey(s + t, k) == OfKey(s, k) + OfKey(t, k)
  {
    if |s| == 0 {
      assert s + t == t;
    } else {
      OfKeyConcat(s[1..], t, k);
      assert (s + t)[1..] == s[1..] + t;
      Associates(if s[0].key == k then [s[0]] else [], OfKey(s[1..], k), OfKey(t, k));
    }
  }

  predicate NoneBelow(s: seq<Element>, bound: int) {
    forall i :: 0 <= i < |s| ==> bound <= s[i].key
  }

  lemma {:induction false} NoneOfKey(s: seq<Element>, k: int)
    requires NoneBelow(s, k + 1)
    ensures OfKey(s, k) == []
  {
    if |s| > 0 {
      NoneOfKey(s[1..], k);
    }
  }
}
