module Quicksort {
  import opened Sorting
  import I = Insertsort

  const CUTOFF := 3

  /**
   * The code exchanges the left element with the right one where the comparison it follows calls for the centre.
   * AsWritten is the code; Intended exchanges with the centre.
   */
  datatype Version = AsWritten | Intended

  // ---- What a segment sort may change ----

  /** t is s with the elements at l..r, inclusive, in some order. */
  ghost predicate Rearranged(s: seq<Element>, t: seq<Element>, l: nat, r: int) {
    && l <= r + 1 <= |s| == |t|
    && s[..l] == t[..l] && s[r + 1..] == t[r + 1..] && multiset(s[l..r + 1]) == multiset(t[l..r + 1])
  }

  lemma Chained(s: seq<Element>, t: seq<Element>, u: seq<Element>, l: nat, r: int)
    requires Rearranged(s, t, l, r) && Rearranged(t, u, l, r)
    ensures Rearranged(s, u, l, r)
  {
  }

  lemma Widened(s: seq<Element>, t: seq<Element>, l: nat, r: int, l': nat, r': int)
    requires l' <= l && r <= r' < |s| && Rearranged(s, t, l, r)
    ensures Rearranged(s, t, l', r')
  {
    assert s[l'..r' + 1] == s[..l][l'..] + s[l..r + 1] + s[r + 1..][..r' - r];
    assert t[l'..r' + 1] == t[..l][l'..] + t[l..r + 1] + t[r + 1..][..r' - r];
    assert s[..l'] == s[..l][..l'] && t[..l'] == t[..l][..l'];
    assert s[r' + 1..] == s[r + 1..][r' - r..] && t[r' + 1..] == t[r + 1..][r' - r..];
  }

  lemma SwapRearranges(s: seq<Element>, i: nat, j: nat, l: nat, r: int)
    requires l <= i <= r < |s| && l <= j <= r
    ensures Rearranged(s, Swapped(s, i, j), l, r)
  {
    var t := Swapped(s, i, j);
    assert t[l..r + 1] == Swapped(s[l..r + 1], i - l, j - l);
    SwappedMultiset(s[l..r + 1], i - l, j - l);
  }

  /** A value in a rearranged segment was in it before. */
  lemma Came(s: seq<Element>, t: seq<Element>, l: nat, r: int, k: nat) returns (from: nat)
    requires Rearranged(s, t, l, r) && l <= k <= r
    ensures l <= from <= r && s[from] == t[k]
  {
    assert t[l..r + 1][k - l] in multiset(s[l..r + 1]);
    var i :| 0 <= i < |s[l..r + 1]| && s[l..r + 1][i] == t[k];
    from := l + i;
  }

  lemma Stays(s: seq<Element>, t: seq<Element>, l: nat, r: int, k: nat)
    requires Rearranged(s, t, l, r) && k < |s| && !(l <= k <= r)
    ensures s[k] == t[k]
  {
    assert k < l ==> s[..l][k] == t[..l][k];
    assert k > r ==> s[r + 1..][k - r - 1] == t[r + 1..][k - r - 1];
  }

  predicate AllAtMost(s: seq<Element>, l: nat, r: int, p: int)
    requires r < |s|
  {
    forall k :: l <= k <= r ==> s[k].key <= p
  }

  predicate AllAtLeast(s: seq<Element>, l: nat, r: int, p: int)
    requires r < |s|
  {
    forall k :: l <= k <= r ==> s[k].key >= p
  }

  lemma BoundsStay(s: seq<Element>, t: seq<Element>, l: nat, r: int, p: int)
    requires Rearranged(s, t, l, r)
    ensures AllAtMost(s, l, r, p) ==> AllAtMost(t, l, r, p)
    ensures AllAtLeast(s, l, r, p) ==> AllAtLeast(t, l, r, p)
  {
    forall k | l <= k <= r ensures exists i :: l <= i <= r && s[i] == t[k] {
      var i := Came(s, t, l, r, k);
    }
  }

  // ---- The pivot ----

  function Median3(s: seq<Element>, l: nat, r: nat, v: Version): (t: seq<Element>)
    requires l + CUTOFF <= r < |s|
    ensures |t| == |s|
  {
    var c := (l + r) / 2;
    var s1 := if s[c].key < s[l].key then Swapped(s, l, if v.AsWritten? then r else c) else s;
    var s2 := if s1[r].key < s1[c].key then Swapped(s1, r, c) else s1;
    var s3 := if s2[c].key < s2[l].key then Swapped(s2, c, l) else s2;
    Swapped(s3, c, r - 1)
  }

  /** The case the exchange gets wrong: the centre is smallest and the right end largest. */
  predicate Misplaces(s: seq<Element>, l: nat, r: nat, v: Version)
    requires l + CUTOFF <= r < |s|
  {
    v.AsWritten? && s[(l + r) / 2].key < s[l].key < s[r].key
  }

  /** The left end and the pivot bound the scans in both versions; only the right end can be below the pivot. */
  lemma Median3Bounds(s: seq<Element>, l: nat, r: nat, v: Version)
    requires l + CUTOFF <= r < |s|
    ensures var t := Median3(s, l, r, v);
      t[l].key <= t[r - 1].key && (t[r].key < t[r - 1].key <==> Misplaces(s, l, r, v))
  {
    var c := (l + r) / 2;
    assert l < c < r - 1;
  }

  lemma Median3Rearranges(s: seq<Element>, l: nat, r: nat, v: Version)
    requires l + CUTOFF <= r < |s|
    ensures Rearranged(s, Median3(s, l, r, v), l, r)
  {
    hide Rearranged, Swapped;
    var c := (l + r) / 2;
    var s1 := if s[c].key < s[l].key then Swapped(s, l, if v.AsWritten? then r else c) else s;
    var s2 := if s1[r].key < s1[c].key then Swapped(s1, r, c) else s1;
    var s3 := if s2[c].key < s2[l].key then Swapped(s2, c, l) else s2;
    Same(s, l, r);
    Exchanged(s, s, l, if v.AsWritten? then r else c, l, r);
    Exchanged(s, s1, r, c, l, r);
    Exchanged(s, s2, c, l, l, r);
    Exchanged(s, s3, c, r - 1, l, r);
  }

  lemma Exchanged(s: seq<Element>, t: seq<Element>, i: nat, j: nat, l: nat, r: nat)
    requires l <= i <= r < |t| && l <= j <= r && Rearranged(s, t, l, r)
    ensures Rearranged(s, Swapped(t, i, j), l, r)
  {
    hide Swapped;
    SwapRearranges(t, i, j, l, r);
    Chained(s, t, Swapped(t, i, j), l, r);
  }

  lemma Same(s: seq<Element>, l: nat, r: nat)
    requires l <= r < |s|
    ensures Rearranged(s, s, l, r)
  {
  }

  // ---- The partition ----

  /** The first place after i that is not below the pivot; the one at hi stops the scan. */
  function ScanUp(s: seq<Element>, i: nat, hi: nat, pivot: int): (k: nat)
    requires i < hi < |s| && s[hi].key >= pivot
    ensures i < k <= hi && s[k].key >= pivot && forall x :: i < x < k ==> s[x].key < pivot
    decreases hi - i
  {
    if s[i + 1].key < pivot then ScanUp(s, i + 1, hi, pivot) else i + 1
  }

  /** The first place before j that is not above the pivot; the one at lo stops the scan. */
  function ScanDown(s: seq<Element>, lo: nat, j: nat, pivot: int): (k: nat)
    requires lo < j < |s| && s[lo].key <= pivot
    ensures lo <= k < j && s[k].key <= pivot && forall x :: k < x < j ==> s[x].key > pivot
    decreases j
  {
    if s[j - 1].key > pivot then ScanDown(s, lo, j - 1, pivot) else j - 1
  }

  /** What holds between two rounds of scans on l..r - 1, the pivot at the right. */
  predicate Between(s: seq<Element>, l: nat, r: nat, i: nat, j: nat) {
    && l <= i < j < r < |s|
    && AllAtMost(s, l, i, s[r - 1].key) && AllAtLeast(s, j, r - 1, s[r - 1].key)
  }

  function Partition(s: seq<Element>, l: nat, r: nat, i: nat, j: nat): (p: (seq<Element>, nat))
    requires Between(s, l, r, i, j)
    ensures |p.0| == |s| && l < p.1 < r
    decreases j
  {
    var i', j' := ScanUp(s, i, r - 1, s[r - 1].key), ScanDown(s, l, j, s[r - 1].key);
    if i' < j' then
      SwapBetween(s, l, r, i, j, i', j');
      Partition(Swapped(s, i', j'), l, r, i', j')
    else (s, i')
  }

  lemma PartitionStep(s: seq<Element>, l: nat, r: nat, i: nat, j: nat)
    requires Between(s, l, r, i, j)
    ensures var i', j' := ScanUp(s, i, r - 1, s[r - 1].key), ScanDown(s, l, j, s[r - 1].key);
      if i' < j' then
        && Between(Swapped(s, i', j'), l, r, i', j') && Swapped(s, i', j')[r - 1] == s[r - 1]
        && Partition(s, l, r, i, j) == Partition(Swapped(s, i', j'), l, r, i', j')
      else Partition(s, l, r, i, j) == (s, i')
  {
    var i', j' := ScanUp(s, i, r - 1, s[r - 1].key), ScanDown(s, l, j, s[r - 1].key);
    if i' < j' {
      SwapBetween(s, l, r, i, j, i', j');
    }
  }

  lemma BetweenEnds(s: seq<Element>, l: nat, r: nat, i: nat, j: nat)
    requires Between(s, l, r, i, j)
    ensures s[l].key <= s[r - 1].key
  {
  }

  /** The partition only exchanges elements between its bounds; the pivot and the right end stay. */
  lemma {:induction false} PartitionRearranges(s: seq<Element>, l: nat, r: nat, i: nat, j: nat)
    requires Between(s, l, r, i, j)
    ensures var p := Partition(s, l, r, i, j);
      p.0[r - 1] == s[r - 1] && p.0[r] == s[r] && Rearranged(s, p.0, l, r)
    decreases j
  {
    hide Rearranged, Swapped, Partition, AllAtMost, AllAtLeast;
    BetweenEnds(s, l, r, i, j);
    PartitionStep(s, l, r, i, j);
    var i', j' := ScanUp(s, i, r - 1, s[r - 1].key), ScanDown(s, l, j, s[r - 1].key);
    if i' < j' {
      var t := Swapped(s, i', j');
      SwapBetween(s, l, r, i, j, i', j');
      hide Between;
      PartitionRearranges(t, l, r, i', j');
      Chained(s, t, Partition(t, l, r, i', j').0, l, r);
    } else {
      Same(s, l, r);
    }
  }

  /** Where the scans have met, everything before is at most the pivot and everything from there on at least. */
  lemma ScansMeet(s: seq<Element>, l: nat, r: nat, i: nat, j: nat)
    requires Between(s, l, r, i, j)
    ensures var i', j' := ScanUp(s, i, r - 1, s[r - 1].key), ScanDown(s, l, j, s[r - 1].key);
      i' >= j' ==> AllAtMost(s, l, i' - 1, s[r - 1].key) && AllAtLeast(s, i', r - 1, s[r - 1].key)
  {
  }

  /** Up to the index returned nothing exceeds the pivot, from there on nothing is below it. */
  lemma {:induction false} PartitionParts(s: seq<Element>, l: nat, r: nat, i: nat, j: nat)
    requires Between(s, l, r, i, j)
    ensures var p := Partition(s, l, r, i, j);
      && p.0[r - 1] == s[r - 1] && p.0[r] == s[r] && Rearranged(s, p.0, l, r)
      && AllAtMost(p.0, l, p.1 - 1, s[r - 1].key) && AllAtLeast(p.0, p.1, r - 1, s[r - 1].key)
    decreases j
  {
    hide Rearranged, Swapped, Partition, AllAtMost, AllAtLeast;
    BetweenEnds(s, l, r, i, j);
    PartitionRearranges(s, l, r, i, j);
    PartitionStep(s, l, r, i, j);
    ScansMeet(s, l, r, i, j);
    var i', j' := ScanUp(s, i, r - 1, s[r - 1].key), ScanDown(s, l, j, s[r - 1].key);
    if i' < j' {
      hide Between;
      PartitionParts(Swapped(s, i', j'), l, r, i', j');
    }
  }

  lemma SwapBetween(s: seq<Element>, l: nat, r: nat, i: nat, j: nat, i': nat, j': nat)
    requires Between(s, l, r, i, j)
    requires i < i' < j' < j && s[i'].key >= s[r - 1].key && s[j'].key <= s[r - 1].key
    requires forall x :: i < x < i' ==> s[x].key < s[r - 1].key
    requires forall x :: j' < x < j ==> s[x].key > s[r - 1].key
    ensures Between(Swapped(s, i', j'), l, r, i', j')
    ensures Swapped(s, i', j')[r - 1] == s[r - 1] && Swapped(s, i', j')[r] == s[r]
    ensures Rearranged(s, Swapped(s, i', j'), l, r)
  {
    SwapRearranges(s, i', j', l, r);
  }

  // ---- The recursion ----

  /** One call up to its recursive calls: the pivot is at the index returned. */
  function Split(s: seq<Element>, l: nat, r: nat, v: Version): (q: (seq<Element>, nat))
    requires l + CUTOFF <= r < |s|
    ensures |q.0| == |s| && l < q.1 < r
  {
    var m := Median3(s, l, r, v);
    Median3Bounds(s, l, r, v);
    var p := Partition(m, l, r, l, r - 1);
    (Swapped(p.0, p.1, r - 1), p.1)
  }

  /** Nothing before the pivot exceeds it; after it only the right end can be below it, in the misplaced case. */
  lemma SplitParts(s: seq<Element>, l: nat, r: nat, v: Version)
    requires l + CUTOFF <= r < |s|
    ensures var q := Split(s, l, r, v);
      && Rearranged(s, q.0, l, r)
      && AllAtMost(q.0, l, q.1 - 1, q.0[q.1].key) && AllAtLeast(q.0, q.1 + 1, r - 1, q.0[q.1].key)
      && (q.0[r].key < q.0[q.1].key <==> Misplaces(s, l, r, v))
  {
    hide Rearranged, Misplaces, Median3;
    var m := Median3(s, l, r, v);
    Median3Bounds(s, l, r, v);
    Median3Rearranges(s, l, r, v);
    PartitionParts(m, l, r, l, r - 1);
    var p := Partition(m, l, r, l, r - 1);
    Chained(s, m, p.0, l, r);
    Exchanged(s, p.0, p.1, r - 1, l, r);
    hide Partition;
  }

  function Qsort(s: seq<Element>, l: nat, r: int, v: Version): (t: seq<Element>)
    requires l <= r + 1 <= |s|
    ensures |t| == |s|
    decreases r - l + 1
  {
    if l + CUTOFF <= r then
      var q := Split(s, l, r, v);
      Qsort(Qsort(q.0, l, q.1 - 1, v), q.1 + 1, r, v)
    else
      Base(s, l, r)
  }

  lemma {:induction false} QsortRearranges(s: seq<Element>, l: nat, r: int, v: Version)
    requires l <= r + 1 <= |s|
    ensures Rearranged(s, Qsort(s, l, r, v), l, r)
    decreases r - l + 1
  {
    hide Rearranged, Split, AllAtMost, AllAtLeast, Base;
    if l + CUTOFF <= r {
      var q := Split(s, l, r, v);
      var t := Qsort(q.0, l, q.1 - 1, v);
      var u := Qsort(t, q.1 + 1, r, v);
      SplitParts(s, l, r, v);
      QsortRearranges(q.0, l, q.1 - 1, v);
      QsortRearranges(t, q.1 + 1, r, v);
      Widened(q.0, t, l, q.1 - 1, l, r);
      Widened(t, u, q.1 + 1, r, l, r);
      Chained(s, q.0, t, l, r);
      Chained(s, t, u, l, r);
    } else {
      BaseRearranges(s, l, r);
    }
  }

  /** Small segments go to the insertion sort. */
  function Base(s: seq<Element>, l: nat, r: int): (t: seq<Element>)
    requires l <= r + 1 <= |s|
    ensures |t| == |s|
  {
    s[..l] + I.Sorted(s[l..r + 1]) + s[r + 1..]
  }

  lemma BaseRearranges(s: seq<Element>, l: nat, r: int)
    requires l <= r + 1 <= |s|
    ensures Rearranged(s, Base(s, l, r), l, r) && AscendingIn(Base(s, l, r), l, r)
  {
    I.SortedSorts(s[l..r + 1]);
    var t := Base(s, l, r);
    assert t[l..r + 1] == I.Sorted(s[l..r + 1]);
    forall i, j | l <= i < j <= r ensures t[i].key <= t[j].key {
      assert t[i] == t[l..r + 1][i - l] && t[j] == t[l..r + 1][j - l];
    }
  }

  predicate AscendingIn(s: seq<Element>, l: nat, r: int)
    requires r < |s|
  {
    forall i, j :: l <= i < j <= r ==> s[i].key <= s[j].key
  }

  /** Some call, this one or one below it, is given the case the exchange gets wrong. */
  predicate Hits(s: seq<Element>, l: nat, r: int, v: Version)
    requires l <= r + 1 <= |s|
    decreases r - l + 1
  {
    l + CUTOFF <= r &&
    var q := Split(s, l, r, v);
    Misplaces(s, l, r, v) || Hits(q.0, l, q.1 - 1, v) || Hits(Qsort(q.0, l, q.1 - 1, v), q.1 + 1, r, v)
  }

  /** The pivot stays in its place with bounded sides, so the result is ascending if and only if both sides are. */
  lemma SidesDecide(q: seq<Element>, t: seq<Element>, u: seq<Element>, l: nat, i: nat, r: nat)
    requires l < i < r < |q| == |t| == |u| && Rearranged(q, t, l, i - 1) && Rearranged(t, u, i + 1, r)
    requires AllAtMost(q, l, i - 1, q[i].key) && AllAtLeast(q, i + 1, r - 1, q[i].key)
    ensures AscendingIn(u, l, r)
       <==> q[r].key >= q[i].key && AscendingIn(t, l, i - 1) && AscendingIn(u, i + 1, r)
  {
    hide Rearranged;
    BoundsStay(q, t, l, i - 1, q[i].key);
    forall k | l <= k < i ensures u[k] == t[k] {
      Stays(t, u, i + 1, r, k);
    }
    Stays(q, t, l, i - 1, i);
    Stays(t, u, i + 1, r, i);
    forall k | i < k <= r ensures t[k] == q[k] {
      Stays(q, t, l, i - 1, k);
    }
    if q[r].key < q[i].key {
      Stays(q, t, l, i - 1, r);
      TurnsUp(t, u, i + 1, r, r);
    } else {
      assert AllAtLeast(t, i + 1, r, q[i].key);
      BoundsStay(t, u, i + 1, r, q[i].key);
    }
  }

  lemma TurnsUp(s: seq<Element>, t: seq<Element>, l: nat, r: int, k: nat)
    requires Rearranged(s, t, l, r) && l <= k <= r
    ensures exists i :: l <= i <= r && t[i] == s[k]
  {
    var i := Came(t, s, l, r, k);
  }

  /** The call sorts its segment exactly if no call is given the misplaced case. */
  lemma {:induction false} QsortSortsUnlessHit(s: seq<Element>, l: nat, r: int, v: Version)
    requires l <= r + 1 <= |s|
    ensures AscendingIn(Qsort(s, l, r, v), l, r) <==> !Hits(s, l, r, v)
    decreases r - l + 1
  {
    hide AscendingIn, Rearranged, AllAtMost, AllAtLeast, Misplaces, Split, Base;
    if l + CUTOFF <= r {
      var q := Split(s, l, r, v);
      var t := Qsort(q.0, l, q.1 - 1, v);
      var u := Qsort(t, q.1 + 1, r, v);
      SplitParts(s, l, r, v);
      QsortRearranges(q.0, l, q.1 - 1, v);
      QsortRearranges(t, q.1 + 1, r, v);
      QsortSortsUnlessHit(q.0, l, q.1 - 1, v);
      QsortSortsUnlessHit(t, q.1 + 1, r, v);
      SidesDecide(q.0, t, u, l, q.1, r);
    } else {
      BaseRearranges(s, l, r);
    }
  }

  lemma {:induction false} IntendedNeverHits(s: seq<Element>, l: nat, r: int)
    requires l <= r + 1 <= |s|
    ensures !Hits(s, l, r, Intended)
    decreases r - l + 1
  {
    hide Split, Base;
    if l + CUTOFF <= r {
      var q := Split(s, l, r, Intended);
      IntendedNeverHits(q.0, l, q.1 - 1);
      IntendedNeverHits(Qsort(q.0, l, q.1 - 1, Intended), q.1 + 1, r);
    }
  }

  // ---- Whole arrays ----

  function Quicksorted(s: seq<Element>, v: Version): seq<Element> {
    Qsort(s, 0, |s| - 1, v)
  }

  /** A permutation in both versions; ascending in the code just when no call is given the misplaced case. */
  lemma QuicksortedSorts(s: seq<Element>)
    ensures forall v :: multiset(Quicksorted(s, v)) == multiset(s)
    ensures AscendingKeys(Quicksorted(s, Intended))
    ensures AscendingKeys(Quicksorted(s, AsWritten)) <==> !Hits(s, 0, |s| - 1, AsWritten)
  {
    hide Hits, Qsort;
    forall v ensures multiset(Quicksorted(s, v)) == multiset(s) {
      QsortRearranges(s, 0, |s| - 1, v);
      assert s[0..|s|] == s && Quicksorted(s, v)[0..|s|] == Quicksorted(s, v);
    }
    QsortSortsUnlessHit(s, 0, |s| - 1, Intended);
    QsortSortsUnlessHit(s, 0, |s| - 1, AsWritten);
    IntendedNeverHits(s, 0, |s| - 1);
  }

  /** The misplaced case on the keys 5, 1, 2, 9: as written they end as 1, 2, 9, 5. */
  lemma NotAlwaysAscending(five: Element, one: Element, two: Element, nine: Element)
    requires five.key == 5 && one.key == 1 && two.key == 2 && nine.key == 9
    ensures Quicksorted([five, one, two, nine], AsWritten) == [one, two, nine, five]
    ensures Quicksorted([five, one, two, nine], Intended) == [one, two, five, nine]
  {
    var s := [five, one, two, nine];
    SplitOfFour(s, [one, nine, two, five], AsWritten);
    SplitOfFour(s, [one, five, two, nine], Intended);
    hide Split;
    BaseOfTwo([one, two, nine, five]);
    BaseOfTwo([one, two, five, nine]);
  }

  lemma SplitOfFour(s: seq<Element>, m: seq<Element>, v: Version)
    requires |s| == 4 && |m| == 4 && Median3(s, 0, 3, v) == Swapped(m, 1, 2)
    requires m[0].key <= m[2].key < m[1].key
    ensures Split(s, 0, 3, v) == ([m[0], m[2], m[1], m[3]], 2)
  {
    var t := [m[0], m[2], m[1], m[3]];
    assert Swapped(m, 1, 2) == t;
    assert ScanUp(t, 0, 2, t[2].key) == 2 && ScanDown(t, 0, 2, t[2].key) == 1;
    assert Partition(t, 0, 3, 0, 2) == (t, 2);
    assert Swapped(t, 2, 2) == t;
  }

  lemma BaseOfTwo(s: seq<Element>)
    requires |s| == 4 && s[0].key <= s[1].key
    ensures Base(Base(s, 0, 1), 3, 3) == s
  {
    assert [s[0], s[1]][..1] == [s[0]] && [s[0]][..0] == [];
    assert I.Sorted([s[0]]) == [s[0]];
    assert I.Sorted([s[0], s[1]]) == [s[0], s[1]];
    assert s[0..2] == [s[0], s[1]];
    assert Base(s, 0, 1) == s;
    assert s[3..4] == [s[3]] && [s[3]][..0] == [];
    assert I.Sorted([s[3]]) == [s[3]];
  }

  method Swap(a: array<Element>, i: nat, j: nat)
    requires i < a.Length && j < a.Length
    modifies a
    ensures a[..] == Swapped(old(a[..]), i, j)
  {
    a[i], a[j] := a[j], a[i];
  }

  method Median3InPlace(a: array<Element>, left: nat, right: nat) returns (pivot: Element)
    requires left + CUTOFF <= right < a.Length
    modifies a
    ensures a[..] == Median3(old(a[..]), left, right, AsWritten) && pivot == a[right - 1]
  {
    hide Swapped;
    var center := (left + right) / 2;
    if a[center].key < a[left].key {
      Swap(a, left, right);
    }
    if a[right].key < a[center].key {
      Swap(a, right, center);
    }
    if a[center].key < a[left].key {
      Swap(a, center, left);
    }
    Swap(a, center, right - 1);
    pivot := a[right - 1];
  }

  /** The two scans have no bounds test of their own; that they stay on left..right - 1 is proved here. */
  method PartitionInPlace(a: array<Element>, left: nat, right: nat, pivot: Element) returns (i: nat)
    requires left + 1 < right < a.Length && a[left].key <= pivot.key && pivot == a[right - 1]
    modifies a
    ensures (a[..], i) == Partition(old(a[..]), left, right, left, right - 1)
  {
    hide Partition, Swapped;
    i := left;
    var j: nat := right - 1;
    ghost var s := a[..];
    while true
      invariant Between(a[..], left, right, i, j) && a[right - 1] == pivot
      invariant Partition(a[..], left, right, i, j) == Partition(s, left, right, left, right - 1)
      decreases j
    {
      PartitionStep(a[..], left, right, i, j);
      ghost var iNext, jNext := ScanUp(a[..], i, right - 1, pivot.key), ScanDown(a[..], left, j, pivot.key);
      i := i + 1;
      while a[i].key < pivot.key
        invariant i <= iNext
        decreases right - i
      {
        i := i + 1;
      }
      j := j - 1;
      while a[j].key > pivot.key
        invariant jNext <= j
        decreases j
      {
        j := j - 1;
      }
      assert i == iNext && j == jNext;
      if i < j {
        Swap(a, i, j);
      } else {
        break;
      }
    }
  }

  method QsortInPlace(a: array<Element>, left: nat, right: int)
    requires left <= right + 1 <= a.Length
    modifies a
    ensures a[..] == Qsort(old(a[..]), left, right, AsWritten)
    decreases right - left + 1
  {
    hide Median3, Partition, Swapped, Misplaces, Base;
    ghost var s := a[..];
    if left + CUTOFF <= right {
      Median3Bounds(s, left, right, AsWritten);
      var pivot := Median3InPlace(a, left, right);
      var i := PartitionInPlace(a, left, right, pivot);
      Swap(a, i, right - 1);
      assert (a[..], i) == Split(s, left, right, AsWritten);
      hide Split;
      QsortInPlace(a, left, i - 1);
      QsortInPlace(a, i + 1, right);
    } else {
      I.Insertsort(a, left, right - left + 1);
      hide Qsort;
      BaseIs(s, a[..], left, right);
    }
  }

  lemma BaseIs(s: seq<Element>, t: seq<Element>, l: nat, r: int)
    requires l <= r + 1 <= |s| && r < l + CUTOFF
    requires t == s[..l] + I.Sorted(s[l..r + 1]) + s[r + 1..]
    ensures t == Qsort(s, l, r, AsWritten)
  {
  }

  /** A permutation always; ascending exactly if no call is given the misplaced case. */
  method QuicksortInPlace(a: array<Element>)
    modifies a
    ensures a[..] == Quicksorted(old(a[..]), AsWritten)
    ensures multiset(a[..]) == old(multiset(a[..]))
    ensures AscendingKeys(a[..]) <==> !Hits(old(a[..]), 0, a.Length - 1, AsWritten)
  {
    hide Qsort, Hits;
    QuicksortedSorts(a[..]);
    QsortInPlace(a, 0, a.Length - 1);
  }
}
