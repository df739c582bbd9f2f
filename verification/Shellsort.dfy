module Shellsort {
  import opened CInt
  import opened Sorting

  /** The first n elements are ordered, largest first, at distance h. */
  predicate OrderedUpTo(s: seq<int>, h: nat, n: nat)
    requires n <= |s|
  {
    forall i :: 0 <= i && i + h < n ==> s[i] >= s[i + h]
  }

  predicate Ordered(s: seq<int>, h: nat) {
    OrderedUpTo(s, h, |s|)
  }

  /** How many of the elements at i, i + h, i + 2h, ... exceed t. */
  function Above(s: seq<int>, i: nat, h: nat, t: int): nat
    requires h >= 1
    decreases |s| - i
  {
    if i >= |s| then 0 else (if s[i] > t then 1 else 0) + Above(s, i + h, h, t)
  }

  /** Each of the h chains holds the same elements: above every bound, equally many. */
  ghost predicate SameChains(a: seq<int>, b: seq<int>, h: nat)
    requires h >= 1
  {
    |a| == |b| && forall r: nat, t :: r < h ==> Above(a, r, h, t) == Above(b, r, h, t)
  }

  // ---- Sorting the h chains preserves k-order (Knuth) ----

  /** In an ordered chain everything before an element above t is above t. */
  lemma {:induction false} ManyAbove(s: seq<int>, h: nat, i: nat, m: nat, t: int)
    requires h >= 1 && Ordered(s, h)
    requires i + m * h < |s| && s[i + m * h] > t
    ensures Above(s, i, h, t) >= m + 1 && s[i] > t
    decreases m
  {
    if m > 0 {
      assert (i + h) + (m - 1) * h == i + m * h;
      ManyAbove(s, h, i + h, m - 1, t);
    }
  }

  /** And nothing after an element not above t is. */
  lemma {:induction false} NoneAbove(s: seq<int>, h: nat, i: nat, t: int)
    requires h >= 1 && Ordered(s, h)
    requires i < |s| ==> s[i] <= t
    ensures Above(s, i, h, t) == 0
    decreases |s| - i
  {
    if i < |s| {
      NoneAbove(s, h, i + h, t);
    }
  }

  lemma {:induction false} FewAbove(s: seq<int>, h: nat, i: nat, m: nat, t: int)
    requires h >= 1 && Ordered(s, h)
    requires i + m * h < |s| && s[i + m * h] <= t
    ensures Above(s, i, h, t) <= m
    decreases m
  {
    if m == 0 {
      NoneAbove(s, h, i, t);
    } else {
      assert (i + h) + (m - 1) * h == i + m * h;
      FewAbove(s, h, i + h, m - 1, t);
    }
  }

  /** In a k-ordered sequence the chain k further on has no more elements above t. */
  lemma {:induction false} AboveShift(s: seq<int>, h: nat, k: nat, i: nat, t: int)
    requires h >= 1 && Ordered(s, k)
    ensures Above(s, i + k, h, t) <= Above(s, i, h, t)
    decreases |s| - i
  {
    if i < |s| {
      AboveShift(s, h, k, i + h, t);
    }
  }

  /** Dropping m elements of a chain drops at most m that are above t. */
  lemma {:induction false} AboveDrop(s: seq<int>, h: nat, i: nat, m: nat, t: int)
    requires h >= 1
    ensures Above(s, i, h, t) <= m + Above(s, i + m * h, h, t)
    decreases m
  {
    if m > 0 {
      assert (i + h) + (m - 1) * h == i + m * h;
      AboveDrop(s, h, i + h, m - 1, t);
      if i >= |s| {
        assert m * h >= 0;
      }
    }
  }

  /** Two positions k apart, each as a place p or q in its chain. */
  lemma Places(j: nat, k: nat, h: nat) returns (r: nat, p: nat, s: nat, q: nat)
    requires h >= 1
    ensures r < h && j == r + p * h
    ensures s < h && j + k == s + q * h
    ensures p <= q && s + (q - p) * h == r + k
  {
    r, p := j % h, j / h;
    s, q := (j + k) % h, (j + k) / h;
    assert j == r + p * h && j + k == s + q * h;
    if q < p {
      Multiples(q, p, h);
    }
    assert (q - p) * h == q * h - p * h;
  }

  /** Knuth's theorem: sorting the h chains of a k-ordered sequence leaves it k-ordered. */
  lemma SortingKeepsOrder(a: seq<int>, b: seq<int>, h: nat, k: nat)
    requires h >= 1
    requires SameChains(a, b, h) && Ordered(b, h) && Ordered(a, k)
    ensures Ordered(b, k)
  {
    forall j | 0 <= j && j + k < |b| ensures b[j] >= b[j + k] {
      var r, p, s, q := Places(j, k, h);
      if b[j + k] > b[j] {
        FewAbove(b, h, r, p, b[j]);
        ManyAbove(b, h, s, q, b[j]);
        AboveDrop(a, h, s, q - p, b[j]);
        AboveShift(a, h, k, r, b[j]);
        assert false;
      }
    }
  }

  // ---- One insertion is a series of exchanges within one chain ----

  lemma {:induction false} AboveElsewhere(s: seq<int>, s': seq<int>, i: nat, h: nat, t: int)
    requires h >= 1 && |s| == |s'|
    requires forall y :: i <= y < |s| && y % h == i % h ==> s[y] == s'[y]
    ensures Above(s', i, h, t) == Above(s, i, h, t)
    decreases |s| - i
  {
    if i < |s| {
      SameResidue(i, h);
      AboveElsewhere(s, s', i + h, h, t);
    }
  }

  lemma SameResidue(i: nat, h: nat)
    requires h >= 1
    ensures (i + h) % h == i % h
  {
    var q := i / h;
    assert i + h == (q + 1) * h + i % h;
    Remainder(i + h, h, q + 1, i % h);
  }

  /** Positions of one chain that differ are at least h apart. */
  lemma Apart(i: nat, x: nat, h: nat)
    requires h >= 1 && i < x && i % h == x % h
    ensures i + h <= x
  {
    var p, q := i / h, x / h;
    assert i == p * h + i % h && x == q * h + x % h;
    if q < p {
      Multiples(q, p, h);
    } else if p < q {
      Multiples(p, q, h);
    }
  }

  /** Exchanging the elements at x and x + h changes no chain's contents. */
  lemma {:induction false} AboveSwapped(s: seq<int>, i: nat, x: nat, h: nat, t: int)
    requires h >= 1 && x + h < |s| && (i <= x || i % h != x % h)
    ensures Above(Swapped(s, x, x + h), i, h, t) == Above(s, i, h, t)
    decreases |s| - i
  {
    var s' := Swapped(s, x, x + h);
    SameResidue(x, h);
    if i % h != x % h {
      AboveElsewhere(s, s', i, h, t);
    } else if i == x {
      SameResidue(x + h, h);
      AboveElsewhere(s, s', x + h + h, h, t);
      assert Above(s, x, h, t) == (if s[x] > t then 1 else 0) + Above(s, x + h, h, t);
      assert Above(s', x, h, t) == (if s'[x] > t then 1 else 0) + Above(s', x + h, h, t);
    } else {
      Apart(i, x, h);
      SameResidue(i, h);
      AboveSwapped(s, i + h, x, h, t);
    }
  }

  lemma SwapKeepsChains(a: seq<int>, s: seq<int>, x: nat, h: nat)
    requires h >= 1 && x + h < |s| && SameChains(a, s, h)
    ensures SameChains(a, Swapped(s, x, x + h), h)
  {
    forall r: nat, t | r < h ensures Above(Swapped(s, x, x + h), r, h, t) == Above(a, r, h, t) {
      if r > x && r % h == x % h {
        Apart(x, r, h);
      }
      AboveSwapped(s, r, x, h, t);
    }
  }

  // ---- The algorithm ----

  /** Only the pair that ends at j may be out of order, and its neighbours on both sides fit together. */
  predicate Sifted(s: seq<int>, h: nat, i: nat, j: nat)
    requires j <= i < |s|
  {
    && (forall x :: 0 <= x && x + h <= i && x + h != j ==> s[x] >= s[x + h])
    && (h <= j && j + h <= i ==> s[j - h] >= s[j + h])
  }

  lemma SiftStep(s: seq<int>, h: nat, i: nat, j: nat)
    requires 1 <= h <= j <= i < |s| && Sifted(s, h, i, j) && s[j] > s[j - h]
    ensures Sifted(Swapped(s, j - h, j), h, i, j - h)
  {
    var s' := Swapped(s, j - h, j);
    forall x | 0 <= x && x + h <= i && x + h != j - h ensures s'[x] >= s'[x + h] {
      assert x == j ==> s[j - h] >= s[j + h];
    }
    if h <= j - h {
      assert s[j - h - h] >= s[j - h - h + h];
    }
  }

  lemma SiftStart(s: seq<int>, h: nat, i: nat)
    requires 1 <= h <= i < |s| && OrderedUpTo(s, h, i)
    ensures Sifted(s, h, i, i) && SameChains(s, s, h)
  {
  }

  lemma SiftDone(s: seq<int>, h: nat, i: nat, j: nat)
    requires 1 <= h <= i < |s| && j <= i && Sifted(s, h, i, j) && (j < h || s[j] <= s[j - h])
    ensures OrderedUpTo(s, h, i + 1)
  {
    forall x | 0 <= x && x + h < i + 1 ensures s[x] >= s[x + h] {
    }
  }

  /** Moving the larger element into the hole at j, seen with the held-out value in the hole, is an exchange. */
  lemma SiftOne(orig: seq<int>, before: seq<int>, s: seq<int>, h: nat, i: nat, j: nat, tmp: int)
    requires 1 <= h <= j <= i < |s| == |before| && s == before[j := tmp] && tmp > before[j - h]
    requires SameChains(orig, s, h) && multiset(s) == multiset(orig) && Sifted(s, h, i, j)
    ensures var t := before[j := before[j - h]][j - h := tmp];
      SameChains(orig, t, h) && multiset(t) == multiset(orig) && Sifted(t, h, i, j - h)
  {
    hide SameChains, Sifted, Swapped;
    HoleMoved(before, j, j - h, tmp);
    SwappedMultiset(s, j - h, j);
    SwapKeepsChains(orig, s, j - h, h);
    SiftStep(s, h, i, j);
  }

  /** The inner loop: moves the element at i down its chain, past the smaller ones. */
  method Insert(a: array<int>, h: nat, i: nat)
    requires 1 <= h <= i < a.Length && OrderedUpTo(a[..], h, i)
    modifies a
    ensures OrderedUpTo(a[..], h, i + 1)
    ensures SameChains(old(a[..]), a[..], h) && multiset(a[..]) == old(multiset(a[..]))
  {
    hide SameChains, Sifted, OrderedUpTo;
    var tmp := a[i];
    var j: nat := i;
    ghost var orig := a[..];
    assert orig[j := tmp] == orig;
    SiftStart(orig, h, i);
    while j >= h
      invariant j <= i
      invariant SameChains(orig, a[..][j := tmp], h) && multiset(a[..][j := tmp]) == multiset(orig)
      invariant Sifted(a[..][j := tmp], h, i, j)
    {
      if tmp > a[j - h] {
        ghost var before := a[..];
        SiftOne(orig, before, before[j := tmp], h, i, j, tmp);
        a[j] := a[j - h];
        assert a[..] == before[j := before[j - h]];
        j := j - h;
      } else {
        break;
      }
    }
    SiftDone(a[..][j := tmp], h, i, j);
    ghost var last := a[..];
    a[j] := tmp;
    assert a[..] == last[j := tmp];
  }

  /** One pass: all chains of distance h become ordered, and no other order is lost. */
  method Pass(a: array<int>, h: nat)
    requires h >= 1
    modifies a
    ensures Ordered(a[..], h)
    ensures SameChains(old(a[..]), a[..], h) && multiset(a[..]) == old(multiset(a[..]))
    ensures forall k: nat :: Ordered(old(a[..]), k) ==> Ordered(a[..], k)
  {
    var i := h;
    while i < a.Length
      invariant h <= i && (i <= a.Length || i == h)
      invariant OrderedUpTo(a[..], h, if i <= a.Length then i else a.Length)
      invariant SameChains(old(a[..]), a[..], h) && multiset(a[..]) == old(multiset(a[..]))
    {
      Insert(a, h, i);
      i := i + 1;
    }
    forall k: nat | Ordered(old(a[..]), k) ensures Ordered(a[..], k) {
      SortingKeepsOrder(old(a[..]), a[..], h, k);
    }
  }

  function Gaps(increment: nat): seq<nat> {
    if increment == 0 then [] else [increment] + Gaps(increment / 2)
  }

  lemma {:induction false} OrderedByOne(s: seq<int>, i: nat, j: nat)
    requires Ordered(s, 1) && i <= j < |s|
    ensures s[i] >= s[j]
    decreases j - i
  {
    if i < j {
      OrderedByOne(s, i, j - 1);
      assert s[j - 1] >= s[j - 1 + 1];
    }
  }

  /** The result is a permutation, largest first. */
  method Shellsort(a: array<int>)
    modifies a
    ensures Descending(a[..]) && multiset(a[..]) == old(multiset(a[..]))
  {
    var increment: nat := a.Length / 2;
    ghost var done: seq<nat> := [];
    while increment > 0
      invariant done + Gaps(increment) == Gaps(a.Length / 2)
      invariant forall g :: g in done ==> Ordered(a[..], g)
      invariant a.Length >= 2 && increment == 0 ==> 1 in done
      invariant multiset(a[..]) == old(multiset(a[..]))
    {
      Pass(a, increment);
      done := done + [increment];
      increment := increment / 2;
    }
    if a.Length >= 2 {
      forall i, j | 0 <= i < j < a.Length ensures a[i] >= a[j] {
        OrderedByOne(a[..], i, j);
      }
    }
  }
}
