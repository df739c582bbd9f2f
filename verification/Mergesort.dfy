module Mergesort {
  import opened Seqs
  import opened Sorting

  // ---- Merging ----

  /** Equal keys are taken from the right first. */
  function Merged(x: seq<Element>, y: seq<Element>): (r: seq<Element>)
    ensures |r| == |x| + |y|
  {
    if |x| == 0 then y
    else if |y| == 0 then x
    else if x[0].key < y[0].key then [x[0]] + Merged(x[1..], y)
    else [y[0]] + Merged(x, y[1..])
  }

  lemma {:induction false} MergedElements(x: seq<Element>, y: seq<Element>)
    ensures multiset(Merged(x, y)) == multiset(x) + multiset(y)
  {
    if |x| > 0 && |y| > 0 {
      if x[0].key < y[0].key {
        MergedElements(x[1..], y);
        assert x == [x[0]] + x[1..];
      } else {
        MergedElements(x, y[1..]);
        assert y == [y[0]] + y[1..];
      }
    }
  }

  lemma {:induction false} MergedAscends(x: seq<Element>, y: seq<Element>)
    requires AscendingKeys(x) && AscendingKeys(y)
    ensures AscendingKeys(Merged(x, y))
    ensures forall bound :: NoneBelow(x, bound) && NoneBelow(y, bound) ==> NoneBelow(Merged(x, y), bound)
  {
    if |x| > 0 && |y| > 0 {
      if x[0].key < y[0].key {
        MergedAscends(x[1..], y);
        assert NoneBelow(x[1..], x[0].key) && NoneBelow(y, x[0].key);
        BoundsOfRest(x);
      } else {
        MergedAscends(x, y[1..]);
        assert NoneBelow(x, y[0].key) && NoneBelow(y[1..], y[0].key);
        BoundsOfRest(y);
      }
    }
  }

  lemma BoundsOfRest(s: seq<Element>)
    requires |s| > 0
    ensures forall bound :: NoneBelow(s, bound) ==> NoneBelow(s[1..], bound) && bound <= s[0].key
  {
  }

  /** Of each key the elements of the right part come out first. */
  lemma {:induction false} MergedOfKey(x: seq<Element>, y: seq<Element>, k: int)
    requires AscendingKeys(x) && AscendingKeys(y)
    ensures OfKey(Merged(x, y), k) == OfKey(y, k) + OfKey(x, k)
  {
    if |x| > 0 && |y| > 0 {
      if x[0].key < y[0].key {
        MergedOfKey(x[1..], y, k);
        if x[0].key == k {
          NoneOfKey(y, k);
        }
      } else {
        MergedOfKey(x, y[1..], k);
        Associates(if y[0].key == k then [y[0]] else [], OfKey(y[1..], k), OfKey(x, k));
      }
    }
  }

  // ---- Sorting ----

  function Sorted(s: seq<Element>): (r: seq<Element>)
    ensures |r| == |s|
  {
    if |s| <= 1 then s
    else
      var half := (|s| + 1) / 2;
      Merged(Sorted(s[..half]), Sorted(s[half..]))
  }

  /** Ascending keys, and the elements of each key in exactly the reverse of their order before. */
  lemma {:induction false} SortedReversesEquals(s: seq<Element>)
    ensures AscendingKeys(Sorted(s)) && multiset(Sorted(s)) == multiset(s)
    ensures forall k :: OfKey(Sorted(s), k) == Backward(OfKey(s, k))
  {
    if |s| <= 1 {
      forall k ensures OfKey(s, k) == Backward(OfKey(s, k)) {
        assert |s| == 1 ==> s[1..] == [];
      }
    } else {
      var half := (|s| + 1) / 2;
      var x, y := s[..half], s[half..];
      assert s == x + y;
      SortedReversesEquals(x);
      SortedReversesEquals(y);
      MergedAscends(Sorted(x), Sorted(y));
      MergedElements(Sorted(x), Sorted(y));
      hide AscendingKeys, OfKey;
      forall k ensures OfKey(Sorted(s), k) == Backward(OfKey(s, k)) {
        MergedOfKey(Sorted(x), Sorted(y), k);
        OfKeyConcat(x, y, k);
        BackwardConcat(OfKey(x, k), OfKey(y, k));
      }
    }
  }

  lemma BackwardConcat<T>(a: seq<T>, b: seq<T>)
    ensures Backward(a + b) == Backward(b) + Backward(a)
  {
  }

  /** So the sort is stable exactly if every key's elements read the same in both directions. */
  lemma StableOnlyForPalindromes(s: seq<Element>)
    ensures (forall k :: OfKey(Sorted(s), k) == OfKey(s, k)) <==> (forall k :: OfKey(s, k) == Backward(OfKey(s, k)))
  {
    SortedReversesEquals(s);
    hide OfKey, Sorted;
  }

  // ---- The algorithm ----

  /** s with the part from l on replaced by m. */
  function Replaced(s: seq<Element>, l: nat, m: seq<Element>): seq<Element>
    requires l + |m| <= |s|
  {
    s[..l] + m + s[l + |m|..]
  }

  /** What was put out so far, and the merge of what is left of both parts. */
  ghost predicate OnTheWay(out: seq<Element>, x: seq<Element>, y: seq<Element>, all: seq<Element>) {
    out + Merged(x, y) == all
  }

  lemma TakeLeft(out: seq<Element>, x: seq<Element>, y: seq<Element>, all: seq<Element>)
    requires |x| > 0 && OnTheWay(out, x, y, all) && (|y| > 0 ==> x[0].key < y[0].key)
    ensures OnTheWay(out + [x[0]], x[1..], y, all)
  {
    Associates(out, [x[0]], Merged(x[1..], y));
    assert |y| == 0 ==> Merged(x[1..], y) == x[1..];
  }

  lemma TakeRight(out: seq<Element>, x: seq<Element>, y: seq<Element>, all: seq<Element>)
    requires |y| > 0 && OnTheWay(out, x, y, all) && (|x| > 0 ==> x[0].key >= y[0].key)
    ensures OnTheWay(out + [y[0]], x, y[1..], all)
  {
    Associates(out, [y[0]], Merged(x, y[1..]));
  }

  lemma StartAndEnd(out: seq<Element>, x: seq<Element>, y: seq<Element>)
    ensures OnTheWay([], x, y, Merged(x, y))
    ensures forall all :: OnTheWay(out, [], [], all) ==> out == all
  {
  }

  method Put(tmpA: array<Element>, count: nat, x: Element)
    requires count < tmpA.Length
    modifies tmpA
    ensures tmpA[..count + 1] == old(tmpA[..count]) + [x]
  {
    tmpA[count] := x;
  }

  /** The three loops that fill the temporary array. */
  method MergeInto(ori: array<Element>, tmpA: array<Element>, left: nat, right: nat, rightEnd: nat) returns (count: nat)
    requires ori != tmpA && left < right <= rightEnd < ori.Length && rightEnd - left < tmpA.Length
    modifies tmpA
    ensures count == rightEnd + 1 - left && tmpA[..count] == Merged(ori[left..right], ori[right..rightEnd + 1])
  {
    hide Merged, OnTheWay;
    ghost var s := ori[..];
    ghost var all := Merged(s[left..right], s[right..rightEnd + 1]);
    var l: nat, r: nat := left, right;
    count := 0;
    StartAndEnd([], s[left..right], s[right..rightEnd + 1]);
    while l < right && r <= rightEnd
      invariant l <= right <= r <= rightEnd + 1 && count == (l - left) + (r - right)
      invariant OnTheWay(tmpA[..count], s[l..right], s[r..rightEnd + 1], all)
      decreases right - l + rightEnd + 1 - r
    {
      if ori[l].key < ori[r].key {
        TakeLeft(tmpA[..count], s[l..right], s[r..rightEnd + 1], all);
        Put(tmpA, count, ori[l]);
        count, l := count + 1, l + 1;
        assert s[l - 1..right][1..] == s[l..right];
      } else {
        TakeRight(tmpA[..count], s[l..right], s[r..rightEnd + 1], all);
        Put(tmpA, count, ori[r]);
        count, r := count + 1, r + 1;
        assert s[r - 1..rightEnd + 1][1..] == s[r..rightEnd + 1];
      }
    }
    while l < right
      invariant l <= right <= r <= rightEnd + 1 && count == (l - left) + (r - right)
      invariant l < right ==> r == rightEnd + 1
      invariant OnTheWay(tmpA[..count], s[l..right], s[r..rightEnd + 1], all)
    {
      TakeLeft(tmpA[..count], s[l..right], s[r..rightEnd + 1], all);
      Put(tmpA, count, ori[l]);
      count, l := count + 1, l + 1;
      assert s[l - 1..right][1..] == s[l..right];
    }
    while r <= rightEnd
      invariant l == right <= r <= rightEnd + 1 && count == (l - left) + (r - right)
      invariant OnTheWay(tmpA[..count], s[l..right], s[r..rightEnd + 1], all)
    {
      TakeRight(tmpA[..count], s[l..right], s[r..rightEnd + 1], all);
      Put(tmpA, count, ori[r]);
      count, r := count + 1, r + 1;
      assert s[r - 1..rightEnd + 1][1..] == s[r..rightEnd + 1];
    }
    assert s[l..right] == [] && s[r..rightEnd + 1] == [];
    StartAndEnd(tmpA[..count], [], []);
  }

  method Merge(ori: array<Element>, tmpA: array<Element>, left: nat, right: nat, rightEnd: nat)
    requires ori != tmpA && left < right <= rightEnd < ori.Length && rightEnd - left < tmpA.Length
    modifies ori, tmpA
    ensures var s := old(ori[..]);
      ori[..] == Replaced(s, left, Merged(s[left..right], s[right..rightEnd + 1]))
  {
    hide Merged;
    ghost var s := ori[..];
    var count := MergeInto(ori, tmpA, left, right, rightEnd);
    assert ori[left..right] == s[left..right] && ori[right..rightEnd + 1] == s[right..rightEnd + 1];
    CopyBack(ori, tmpA, count, rightEnd);
  }

  /** Copies from the end, so that the last element goes to rightEnd. */
  method CopyBack(ori: array<Element>, tmpA: array<Element>, count: nat, rightEnd: nat)
    requires ori != tmpA && rightEnd < ori.Length && count <= rightEnd + 1 && count <= tmpA.Length
    modifies ori
    ensures ori[..] == Replaced(old(ori[..]), rightEnd + 1 - count, tmpA[..count])
  {
    var j, to := count - 1, rightEnd;
    while j >= 0
      invariant -1 <= j < count && to == rightEnd + 1 - count + j
      invariant forall k :: 0 <= k <= to || rightEnd < k < ori.Length ==> ori[k] == old(ori[k])
      invariant forall k :: j < k < count ==> ori[rightEnd + 1 - count + k] == tmpA[k]
    {
      ori[to] := tmpA[j];
      j, to := j - 1, to - 1;
    }
  }

  method Msort(ori: array<Element>, tmpA: array<Element>, left: nat, right: int)
    requires ori != tmpA && left <= right + 1 <= ori.Length && ori.Length <= tmpA.Length
    modifies ori, tmpA
    ensures ori[..] == Replaced(old(ori[..]), left, Sorted(old(ori[left..right + 1])))
    decreases right - left + 1
  {
    hide Sorted, Merged;
    ghost var s := ori[..];
    if left < right {
      var center := (left + right) / 2;
      Msort(ori, tmpA, left, center);
      ghost var t := ori[..];
      Msort(ori, tmpA, center + 1, right);
      ghost var u := ori[..];
      Halves(s, t, u, left, center, right);
      Merge(ori, tmpA, left, center + 1, right);
      assert ori[..] == Replaced(u, left, Sorted(s[left..right + 1]));
    } else {
      OneOrNone(s, left, right);
    }
  }

  lemma OneOrNone(s: seq<Element>, l: nat, r: int)
    requires r <= l <= r + 1 <= |s|
    ensures s == Replaced(s, l, Sorted(s[l..r + 1]))
  {
  }

  /** What the two recursive calls leave for the merge. */
  lemma Halves(s: seq<Element>, t: seq<Element>, u: seq<Element>, l: nat, c: nat, r: nat)
    requires l < r < |s| && c == (l + r) / 2
    requires t == Replaced(s, l, Sorted(s[l..c + 1]))
    requires u == Replaced(t, c + 1, Sorted(t[c + 1..r + 1]))
    ensures |u| == |s|
    ensures Merged(u[l..c + 1], u[c + 1..r + 1]) == Sorted(s[l..r + 1])
    ensures u[..l] == s[..l] && u[r + 1..] == s[r + 1..]
  {
    hide Sorted, Merged;
    TwoReplaced(s, l, Sorted(s[l..c + 1]), Sorted(t[c + 1..r + 1]));
    SortedOfHalves(s[l..r + 1]);
    assert s[l..r + 1][..c + 1 - l] == s[l..c + 1];
    assert s[l..r + 1][c + 1 - l..] == s[c + 1..r + 1];
  }

  lemma SortedOfHalves(whole: seq<Element>)
    requires |whole| > 1
    ensures var half := (|whole| + 1) / 2; Sorted(whole) == Merged(Sorted(whole[..half]), Sorted(whole[half..]))
  {
  }

  lemma TwoReplaced(s: seq<Element>, l: nat, x: seq<Element>, y: seq<Element>)
    requires l + |x| + |y| <= |s|
    ensures var t := Replaced(s, l, x);
      var u := Replaced(t, l + |x|, y);
      && t[l + |x|..l + |x| + |y|] == s[l + |x|..l + |x| + |y|]
      && |u| == |s| && u[..l] == s[..l] && u[l..l + |x|] == x && u[l + |x|..l + |x| + |y|] == y
      && u[l + |x| + |y|..] == s[l + |x| + |y|..]
  {
  }

  /** Without memory for the temporary array nothing is sorted. */
  method Mergesort(ori: array<Element>, hasMemory: bool)
    modifies ori
    ensures ori[..] == if hasMemory then Sorted(old(ori[..])) else old(ori[..])
  {
    if hasMemory {
      ghost var s := ori[..];
      var tmpA := new Element[ori.Length](_ => Element(0, 0));
      Msort(ori, tmpA, 0, ori.Length - 1);
      assert s[0..|s|] == s;
    }
  }
}
