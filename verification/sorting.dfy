/**
  Descending order of observables. The script sorts with `argsort(-values)`,
  whose order among equal values is unspecified; the model sorts values only,
  and `DescendingIsUnique` shows that every descending arrangement of the same
  values is the same sequence, so nothing downstream can depend on tie order.
 */
module Sorting {

  predicate Descending(s: seq<real>) {
    forall i, j :: 0 <= i < j < |s| ==> s[i] >= s[j]
  }

  /** Removing the head removes one copy of it from the multiset. */
  lemma SplitHead(s: seq<real>)
    requires |s| > 0
    ensures multiset(s[1..]) == multiset(s) - multiset{s[0]}
  {
    assert s == [s[0]] + s[1..];
  }

  /** Putting a value no smaller than the head in front keeps a sequence descending. */
  lemma ConsDescending(h: real, t: seq<real>)
    requires Descending(t) && (|t| > 0 ==> h >= t[0])
    ensures Descending([h] + t)
  {
  }

  /** Insert `x` into a descending sequence, keeping it descending. */
  function Insert(x: real, s: seq<real>): (r: seq<real>)
    requires Descending(s)
    ensures Descending(r)
    ensures multiset(r) == multiset(s) + multiset{x}
    ensures |r| == |s| + 1
    ensures r[0] == x || (|s| > 0 && r[0] == s[0])
  {
    if |s| == 0 then [x]
    else if x >= s[0] then
      ConsDescending(x, s);
      [x] + s
    else
      var rest := Insert(x, s[1..]);
      SplitHead(s);
      ConsDescending(s[0], rest);
      [s[0]] + rest
  }

  /** The observables in descending order (insertion sort). */
  function SortDescending(s: seq<real>): (r: seq<real>)
    ensures Descending(r)
    ensures multiset(r) == multiset(s)
    ensures |r| == |s|
  {
    if |s| == 0 then []
    else
      assert s == [s[0]] + s[1..];
      Insert(s[0], SortDescending(s[1..]))
  }

  /** The first element of a non-empty descending sequence is its largest. */
  lemma HeadIsMaximum(s: seq<real>, x: real)
    requires Descending(s) && x in multiset(s)
    ensures s[0] >= x
  {
    var i :| 0 <= i < |s| && s[i] == x;
  }

  /** Two descending sequences holding the same values are equal, whatever order the values came in. */
  lemma {:induction false} DescendingIsUnique(a: seq<real>, b: seq<real>)
    requires Descending(a) && Descending(b)
    requires multiset(a) == multiset(b)
    ensures a == b
  {
    assert |a| == |multiset(a)| == |multiset(b)| == |b|;
    if |a| > 0 {
      HeadIsMaximum(b, a[0]);
      HeadIsMaximum(a, b[0]);
      var x := a[0];
      assert b[0] == x;
      SplitHead(a);
      SplitHead(b);
      assert multiset(a[1..]) == multiset(b[1..]);
      DescendingIsUnique(a[1..], b[1..]);
    }
  }

  /** Every element of a descending sequence lies between its last and its first element. */
  lemma WithinEnds(s: seq<real>, x: real)
    requires Descending(s) && x in s
    ensures s[|s| - 1] <= x <= s[0]
  {
  }

  /** Sorting only depends on the values: any reordering of the input sorts to the same sequence. */
  lemma SortIgnoresInputOrder(a: seq<real>, b: seq<real>)
    requires multiset(a) == multiset(b)
    ensures SortDescending(a) == SortDescending(b)
  {
    DescendingIsUnique(SortDescending(a), SortDescending(b));
  }
}
