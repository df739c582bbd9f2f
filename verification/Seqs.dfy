/** Facts about sequences that several components use. */
module Seqs {

  function Backward<T>(s: seq<T>): (r: seq<T>)
    ensures |r| == |s|
    ensures forall i :: 0 <= i < |s| ==> r[i] == s[|s| - 1 - i]
  {
    seq(|s|, i requires 0 <= i < |s| => s[|s| - 1 - i])
  }

  function Flatten<T>(parts: seq<seq<T>>): seq<T> {
    if |parts| == 0 then [] else parts[0] + Flatten(parts[1..])
  }

  lemma {:induction false} FlattenConcat<T>(a: seq<seq<T>>, b: seq<seq<T>>)
    ensures Flatten(a + b) == Flatten(a) + Flatten(b)
  {
    if |a| == 0 {
      assert a + b == b;
    } else {
      FlattenConcat(a[1..], b);
      assert (a + b)[1..] == a[1..] + b && (a + b)[0] == a[0];
      Associates(a[0], Flatten(a[1..]), Flatten(b));
    }
  }

  lemma Associates<T>(a: seq<T>, b: seq<T>, c: seq<T>)
    ensures a + (b + c) == (a + b) + c
  {
  }

  lemma FlattenOne<T>(a: seq<seq<T>>, x: seq<T>)
    ensures Flatten(a + [x]) == Flatten(a) + x
  {
    FlattenConcat(a, [x]);
    assert Flatten([x]) == x + Flatten([]);
  }

  function Last<T>(s: seq<T>): T
    requires |s| > 0
  {
    s[|s| - 1]
  }

  function Init<T>(s: seq<T>): seq<T>
    requires |s| > 0
  {
    s[..|s| - 1]
  }

  lemma InitLast<T>(s: seq<T>, x: T)
    ensures Init(s + [x]) == s && Last(s + [x]) == x
  {
  }

  lemma FlattenJoin<T>(init: seq<seq<T>>, last: seq<T>, x: T)
    ensures Flatten(init + [last + [x]]) == Flatten(init + [last]) + [x]
  {
    FlattenOne(init, last);
    FlattenOne(init, last + [x]);
    Associates(Flatten(init), last, [x]);
  }

  lemma InitAndLast<T>(s: seq<T>)
    requires |s| > 0
    ensures s == Init(s) + [Last(s)]
  {
  }

  lemma FlattenLast<T>(parts: seq<seq<T>>, x: T)
    requires |parts| > 0
    ensures Flatten(Init(parts) + [Last(parts) + [x]]) == Flatten(parts) + [x]
  {
    hide *;
    InitAndLast(parts);
    FlattenJoin(Init(parts), Last(parts), x);
  }
}
