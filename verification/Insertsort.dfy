module Insertsort {
  import opened Sorting

  /** Where the last of n ordered elements goes: after those not larger. */
  function Place(s: seq<Element>, x: Element): (p: nat)
    ensures p <= |s|
  {
    if |s| == 0 || s[|s| - 1].key <= x.key then |s| else Place(s[..|s| - 1], x)
  }

  /** x put in its place. */
  function Inserted(s: seq<Element>, x: Element): (r: seq<Element>)
    ensures |r| == |s| + 1
  {
    s[..Place(s, x)] + [x] + s[Place(s, x)..]
  }

  function Sorted(s: seq<Element>): (r: seq<Element>)
    ensures |r| == |s|
  {
    if |s| == 0 then []
    else
      var init, x := Sorted(s[..|s| - 1]), s[|s| - 1];
      Inserted(init, x)
  }

  lemma {:induction false} PlaceSplits(s: seq<Element>, x: Element)
    requires AscendingKeys(s)
    ensures forall k :: 0 <= k < |s| ==> (k < Place(s, x) <==> s[k].key <= x.key)
  {
    if |s| > 0 && s[|s| - 1].key > x.key {
      PlaceSplits(s[..|s| - 1], x);
    }
  }

  lemma InsertedSorts(s: seq<Element>, x: Element)
    requires AscendingKeys(s)
    ensures AscendingKeys(Inserted(s, x)) && multiset(Inserted(s, x)) == multiset(s) + multiset{x}
  {
    PlaceSplits(s, x);
    var p := Place(s, x);
    hide Place;
    assert s == s[..p] + s[p..];
  }

  lemma {:induction false} SortedSorts(s: seq<Element>)
    ensures AscendingKeys(Sorted(s)) && multiset(Sorted(s)) == multiset(s)
  {
    if |s| > 0 {
      var n := |s| - 1;
      SortedSorts(s[..n]);
      InsertedSorts(Sorted(s[..n]), s[n]);
      hide AscendingKeys, Inserted;
      assert s == s[..n] + [s[n]];
    }
  }

  /** An element goes behind those with its key. */
  lemma InsertedOfKey(s: seq<Element>, x: Element, k: int)
    requires AscendingKeys(s)
    ensures OfKey(Inserted(s, x), k) == OfKey(s, k) + (if x.key == k then [x] else [])
  {
    PlaceSplits(s, x);
    hide Place;
    var p := Place(s, x);
    var front, back := s[..p], s[p..];
    assert s == front + back;
    OfKeyConcat(front, back, k);
    OfKeyConcat(front + [x], back, k);
    OfKeyConcat(front, [x], k);
    assert OfKey([x], k) == if x.key == k then [x] else [];
    if x.key == k {
      NoneOfKey(back, k);
    }
  }

  /** The sort is stable: the elements of each key keep their order. */
  lemma {:induction false} SortedKeepsEquals(s: seq<Element>, k: int)
    ensures OfKey(Sorted(s), k) == OfKey(s, k)
  {
    if |s| > 0 {
      var n := |s| - 1;
      SortedSorts(s[..n]);
      SortedKeepsEquals(s[..n], k);
      InsertedOfKey(Sorted(s[..n]), s[n], k);
      OfKeyConcat(s[..n], [s[n]], k);
      assert s == s[..n] + [s[n]];
      hide AscendingKeys, Inserted;
    }
  }

  /** The inner loop: moves the element at i down past the larger ones. */
  method InsertNext(a: array<Element>, from: nat, i: nat)
    requires from + i < a.Length
    modifies a
    ensures a[..] == old(a[..from]) + Inserted(old(a[from..from + i]), old(a[from + i])) + old(a[from + i + 1..])
  {
    hide Place, Inserted;
    var tmp := a[from + i];
    var j: nat := i;
    ghost var s := a[..];
    while j > 0 && a[from + j - 1].key > tmp.key
      invariant j <= i && PlaceFrom(s, from, i, tmp) == PlaceFrom(s, from, j, tmp)
      invariant forall k :: 0 <= k < from + j || from + i < k < a.Length ==> a[k] == s[k]
      invariant forall k :: from + j < k <= from + i ==> a[k] == s[k - 1]
    {
      a[from + j] := a[from + j - 1];
      PlaceStep(s, from, j, tmp);
      j := j - 1;
    }
    a[from + j] := tmp;
    PlaceStep(s, from, j, tmp);
    Moved(s, a[..], from, i, j, tmp);
  }

  function PlaceFrom(s: seq<Element>, from: nat, n: nat, x: Element): nat
    requires from + n <= |s|
  {
    Place(s[from..from + n], x)
  }

  lemma PlaceStep(s: seq<Element>, from: nat, j: nat, x: Element)
    requires from + j < |s|
    ensures j > 0 && s[from + j - 1].key > x.key ==> PlaceFrom(s, from, j, x) == PlaceFrom(s, from, j - 1, x)
    ensures j == 0 || s[from + j - 1].key <= x.key ==> PlaceFrom(s, from, j, x) == j
  {
    assert j > 0 ==> s[from..from + j][..j - 1] == s[from..from + j - 1];
  }

  lemma Moved(s: seq<Element>, t: seq<Element>, from: nat, i: nat, j: nat, x: Element)
    requires j <= i && from + i < |s| == |t| && PlaceFrom(s, from, i, x) == j && t[from + j] == x
    requires forall k :: 0 <= k < from + j || from + i < k < |s| ==> t[k] == s[k]
    requires forall k :: from + j < k <= from + i ==> t[k] == s[k - 1]
    ensures t == s[..from] + Inserted(s[from..from + i], x) + s[from + i + 1..]
  {
    hide Place;
    var init := s[from..from + i];
    assert Inserted(init, x) == init[..j] + [x] + init[j..];
  }

  /** The elements from..from + len of a, sorted in place; the rest stays. */
  method Insertsort(a: array<Element>, from: nat, len: nat)
    requires from + len <= a.Length
    modifies a
    ensures a[..] == old(a[..from]) + Sorted(old(a[from..from + len])) + old(a[from + len..])
  {
    hide Sorted, Inserted;
    ghost var s := a[..];
    SortedBegins(s, from, len);
    var i := 1;
    while i < len
      invariant 1 <= i && (i <= len || i == 1)
      invariant len > 0 ==> a[..] == s[..from] + Sorted(s[from..from + i]) + s[from + i..]
      invariant len == 0 ==> a[..] == s
    {
      InsertNext(a, from, i);
      SortedGoesOn(s, from, i);
      i := i + 1;
    }
    if len == 0 {
      assert s == s[..from] + [] + s[from..];
    }
  }

  lemma SortedBegins(s: seq<Element>, from: nat, len: nat)
    requires from + len <= |s|
    ensures Sorted([]) == []
    ensures len == 0 ==> s[from..from + len] == []
    ensures len > 0 ==> s == s[..from] + Sorted(s[from..from + 1]) + s[from + 1..]
  {
    if len > 0 {
      assert s[from..from + 1] == [s[from]] && [s[from]][..0] == [];
      assert Sorted([s[from]]) == [s[from]];
    }
  }

  lemma SortedGoesOn(s: seq<Element>, from: nat, i: nat)
    requires from + i < |s|
    ensures Sorted(s[from..from + i + 1]) == Inserted(Sorted(s[from..from + i]), s[from + i])
  {
    assert s[from..from + i + 1][..i] == s[from..from + i];
  }
}
