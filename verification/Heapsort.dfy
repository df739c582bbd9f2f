module Heapsort {
  import opened Sorting

  function LeftChild(i: nat): nat {
    2 * i + 1
  }

  /** Node k is not below its children, in the heap of the first n elements. */
  predicate NodeOk(s: seq<int>, n: nat, k: nat)
    requires n <= |s|
  {
    && (LeftChild(k) < n ==> s[k] >= s[LeftChild(k)])
    && (LeftChild(k) + 1 < n ==> s[k] >= s[LeftChild(k) + 1])
  }

  /** From node lo on, every node of the first n elements heads a heap. */
  predicate HeapFrom(s: seq<int>, n: nat, lo: nat)
    requires n <= |s|
  {
    forall k :: lo <= k < n ==> NodeOk(s, n, k)
  }

  lemma {:induction false} RootIsLargest(s: seq<int>, n: nat, k: nat)
    requires k < n <= |s| && HeapFrom(s, n, 0)
    ensures s[k] <= s[0]
    decreases k
  {
    if k > 0 {
      var parent := (k - 1) / 2;
      assert k == LeftChild(parent) || k == LeftChild(parent) + 1;
      assert NodeOk(s, n, parent);
      RootIsLargest(s, n, parent);
    }
  }

  // ---- Sifting down ----

  /** From pos on only node i may be out of order, and what is above it is not below its children. */
  predicate Sifting(s: seq<int>, n: nat, pos: nat, i: nat)
    requires n <= |s|
  {
    && pos <= i < n
    && (forall k :: pos <= k < n && k != i ==> NodeOk(s, n, k))
    && (i > pos ==> pos <= (i - 1) / 2 && ParentOk(s, n, (i - 1) / 2, i))
  }

  /** An upper node is not below the children of a lower one. */
  predicate ParentOk(s: seq<int>, n: nat, upper: nat, i: nat)
    requires upper < n <= |s|
  {
    && (LeftChild(i) < n ==> s[upper] >= s[LeftChild(i)])
    && (LeftChild(i) + 1 < n ==> s[upper] >= s[LeftChild(i) + 1])
  }

  lemma SiftStart(s: seq<int>, n: nat, pos: nat)
    requires pos < n <= |s| && HeapFrom(s, n, pos + 1)
    ensures Sifting(s, n, pos, pos)
  {
  }

  /** c is the larger child of i. */
  predicate LargerChild(s: seq<int>, n: nat, i: nat, c: nat)
    requires n <= |s|
  {
    && (c == LeftChild(i) || c == LeftChild(i) + 1) && c < n
    && s[c] >= s[LeftChild(i)] && (LeftChild(i) + 1 < n ==> s[c] >= s[LeftChild(i) + 1])
  }

  lemma SiftStep(s: seq<int>, n: nat, pos: nat, i: nat, c: nat)
    requires n <= |s| && Sifting(s, n, pos, i) && LargerChild(s, n, i, c) && s[i] < s[c]
    ensures Sifting(Swapped(s, i, c), n, pos, c)
  {
    var t := Swapped(s, i, c);
    assert (c - 1) / 2 == i;
    forall k | pos <= k < n && k != c ensures NodeOk(t, n, k) {
      if k != i {
        assert NodeOk(s, n, k);
        assert LeftChild(k) != c && LeftChild(k) + 1 != c;
        assert LeftChild(k) == i || LeftChild(k) + 1 == i ==> k == (i - 1) / 2;
      }
    }
    assert NodeOk(s, n, c);
  }

  lemma SiftDone(s: seq<int>, n: nat, pos: nat, i: nat)
    requires n <= |s| && Sifting(s, n, pos, i) && NodeOk(s, n, i)
    ensures HeapFrom(s, n, pos)
  {
  }

  /** s and t hold the same first n elements in some order, and the same others. */
  ghost predicate SamePrefix(s: seq<int>, t: seq<int>, n: nat) {
    n <= |s| == |t| && multiset(s[..n]) == multiset(t[..n]) && s[n..] == t[n..]
  }

  lemma SwapKeepsPrefix(s: seq<int>, t: seq<int>, n: nat, i: nat, j: nat)
    requires SamePrefix(s, t, n) && i < n && j < n
    ensures SamePrefix(s, Swapped(t, i, j), n)
  {
    assert Swapped(t, i, j)[..n] == Swapped(t[..n], i, j);
    SwappedMultiset(t[..n], i, j);
  }

  method PercDownMax(a: array<int>, pos: nat, len: nat)
    requires pos < len <= a.Length && HeapFrom(a[..], len, pos + 1)
    modifies a
    ensures HeapFrom(a[..], len, pos) && SamePrefix(old(a[..]), a[..], len)
  {
    hide Sifting, SamePrefix, HeapFrom, Swapped;
    var tmp := a[pos];
    var i := pos;
    ghost var s := a[..];
    assert s[i := tmp] == s;
    SiftStart(s, len, pos);
    SamePrefixRefl(s, len);
    while LeftChild(i) < len
      invariant pos <= i < len && |s| == a.Length && s == a[..][i := tmp]
      invariant Sifting(s, len, pos, i) && SamePrefix(old(a[..]), s, len)
      decreases len - i
    {
      var child := LeftChild(i);
      if child < len - 1 && a[child] < a[child + 1] {
        child := child + 1;
      }
      assert LargerChild(s, len, i, child);
      if tmp < a[child] {
        ghost var before := a[..];
        SiftStep(s, len, pos, i, child);
        SwapKeepsPrefix(old(a[..]), s, len, i, child);
        a[i] := a[child];
        HoleMoved(before, i, child, tmp);
        s := Swapped(s, i, child);
        i := child;
        assert s == a[..][i := tmp];
      } else {
        break;
      }
    }
    a[i] := tmp;
    assert a[..] == s;
    SiftDone(s, len, pos, i);
  }

  lemma SamePrefixRefl(s: seq<int>, n: nat)
    requires n <= |s|
    ensures SamePrefix(s, s, n)
  {
  }

  // ---- The two phases ----

  /** From n on the elements are in order, and none is below one of the first n. */
  predicate SuffixDone(s: seq<int>, n: nat)
    requires n <= |s|
  {
    forall i, j :: 0 <= i < j < |s| && n <= j ==> s[i] <= s[j]
  }

  lemma PrefixStaysBelow(s: seq<int>, t: seq<int>, n: nat)
    requires SamePrefix(s, t, n) && SuffixDone(s, n)
    ensures SuffixDone(t, n)
  {
    forall i, j | 0 <= i < j < |t| && n <= j ensures t[i] <= t[j] {
      assert t[j] == t[n..][j - n] && s[j] == s[n..][j - n];
      if i < n {
        assert t[..n][i] in multiset(s[..n]);
        var k :| 0 <= k < |s[..n]| && s[..n][k] == t[i];
        assert s[k] <= s[j];
      } else {
        assert t[i] == t[n..][i - n] && s[i] == s[n..][i - n];
      }
    }
  }

  lemma RootMovesToTheSuffix(s: seq<int>, n: nat)
    requires 1 <= n < |s| && HeapFrom(s, n + 1, 0) && SuffixDone(s, n + 1)
    ensures var t := Swapped(s, 0, n);
      HeapFrom(t, n, 1) && SuffixDone(t, n) && multiset(t) == multiset(s)
  {
    var t := Swapped(s, 0, n);
    forall k | 1 <= k < n ensures NodeOk(t, n, k) {
      assert NodeOk(s, n + 1, k);
    }
    forall i, j | 0 <= i < j < |t| && n <= j ensures t[i] <= t[j] {
      if j == n {
        RootIsLargest(s, n + 1, if i == 0 then n else i);
      } else {
        assert s[i] <= s[j] && s[n] <= s[j] && s[0] <= s[j];
      }
    }
    SwappedMultiset(s, 0, n);
  }

  lemma SamePrefixMultiset(s: seq<int>, t: seq<int>, n: nat)
    requires SamePrefix(s, t, n)
    ensures multiset(s) == multiset(t)
  {
    assert s == s[..n] + s[n..] && t == t[..n] + t[n..];
  }

  /** An ascending permutation; on an empty array the code would read outside it. */
  method Heapsort(a: array<int>)
    requires a.Length >= 1
    modifies a
    ensures Ascending(a[..]) && multiset(a[..]) == old(multiset(a[..]))
  {
    BuildHeap(a);
    hide HeapFrom, SamePrefix, Swapped;
    var i := a.Length - 1;
    while i > 0
      invariant 0 <= i < a.Length
      invariant HeapFrom(a[..], i + 1, 0) && SuffixDone(a[..], i + 1)
      invariant multiset(a[..]) == old(multiset(a[..]))
    {
      RootMovesToTheSuffix(a[..], i);
      ghost var t := Swapped(a[..], 0, i);
      Exchange(a, i);
      PercDownMax(a, 0, i);
      PrefixStaysBelow(t, a[..], i);
      SamePrefixMultiset(t, a[..], i);
      i := i - 1;
    }
  }

  method Exchange(a: array<int>, i: nat)
    requires i < a.Length
    modifies a
    ensures a[..] == Swapped(old(a[..]), 0, i)
  {
    var tmp := a[0];
    a[0] := a[i];
    a[i] := tmp;
  }

  method BuildHeap(a: array<int>)
    requires a.Length >= 1
    modifies a
    ensures HeapFrom(a[..], a.Length, 0) && multiset(a[..]) == old(multiset(a[..]))
  {
    var i := a.Length / 2;
    while i >= 0
      invariant -1 <= i <= a.Length / 2
      invariant HeapFrom(a[..], a.Length, i + 1)
      invariant multiset(a[..]) == old(multiset(a[..]))
    {
      ghost var s := a[..];
      PercDownMax(a, i, a.Length);
      SamePrefixMultiset(s, a[..], a.Length);
      i := i - 1;
    }
  }
}
