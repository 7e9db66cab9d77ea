/**
  The event database as the scripts see it through h5py: a top level of event
  groups keyed by event id, each group a set of named numeric arrays. Key order
  matters (a wildcard lookup takes the first matching key), so groups and the
  database are ordered lists of named entries.
 */
module Datasets {
  import opened Wrappers
  import Glob

  /** One stored number: a real value or NaN. */
  datatype Cell = Num(v: real) | NaN

  /** `numpy.nan_to_num` on one cell: NaN becomes 0, every number is kept. */
  function Sanitize(c: Cell): real {
    match c
    case Num(v) => v
    case NaN => 0.0
  }

  /** A two-dimensional array: `width` columns, one inner sequence per row. */
  datatype Grid<T> = Grid(width: nat, rows: seq<seq<T>>) {
    predicate Rectangular() {
      forall i :: 0 <= i < |rows| ==> |rows[i]| == width
    }
  }

  /** A numpy array of shape (|rows|, width): every row holds `width` entries. */
  type Matrix<T> = g: Grid<T> | g.Rectangular() witness Grid(0, [])

  /** Equal numpy shapes. */
  predicate SameShape<S, T>(a: Matrix<S>, b: Matrix<T>) {
    a.width == b.width && |a.rows| == |b.rows|
  }

  /** `numpy.nan_to_num` on a whole array. */
  function Clean(m: Matrix<Cell>): (r: Matrix<real>)
    ensures SameShape(r, m)
    ensures forall i, j :: 0 <= i < |m.rows| && 0 <= j < m.width ==>
              (m.rows[i][j].NaN? ==> r.rows[i][j] == 0.0) &&
              (m.rows[i][j].Num? ==> r.rows[i][j] == m.rows[i][j].v)
  {
    Grid(m.width, seq(|m.rows|, i requires 0 <= i < |m.rows| =>
                        seq(m.width, j requires 0 <= j < m.width => Sanitize(m.rows[i][j]))))
  }

  /** Column `c` of an array, `data[:, c]`. */
  function Column(m: Matrix<real>, c: nat): (col: seq<real>)
    requires c < m.width
    ensures |col| == |m.rows|
    ensures forall i :: 0 <= i < |col| ==> col[i] == m.rows[i][c]
  {
    seq(|m.rows|, i requires 0 <= i < |m.rows| => m.rows[i][c])
  }

  // ---------------------------------------------------------------------------
  // Sums

  /** `numpy.sum` of a one-dimensional array (exact over the reals). */
  function Sum(s: seq<real>): real {
    if |s| == 0 then 0.0 else s[0] + Sum(s[1..])
  }

  lemma {:induction false} SumAppend(a: seq<real>, b: seq<real>)
    ensures Sum(a + b) == Sum(a) + Sum(b)
  {
    if |a| == 0 {
      assert a + b == b;
    } else {
      assert (a + b)[1..] == a[1..] + b;
      SumAppend(a[1..], b);
    }
  }

  /** A sum of n terms, each between `lo` and `hi`, lies between n*lo and n*hi. */
  lemma {:induction false} SumBounds(s: seq<real>, lo: real, hi: real)
    requires forall i :: 0 <= i < |s| ==> lo <= s[i] <= hi
    ensures (|s| as real) * lo <= Sum(s) <= (|s| as real) * hi
  {
    if |s| > 0 {
      SumBounds(s[1..], lo, hi);
      assert (|s| as real) * lo == lo + ((|s| - 1) as real) * lo;
      assert (|s| as real) * hi == hi + ((|s| - 1) as real) * hi;
    }
  }

  /** A quotient by a positive divisor keeps the bounds its dividend has in multiples of the divisor. */
  lemma DivBounds(x: real, n: real, lo: real, hi: real)
    requires n > 0.0 && lo * n <= x <= hi * n
    ensures lo <= x / n <= hi
  {
    var q := x / n;
    assert q * n == x;
    assert (q - lo) * n == x - lo * n;
    assert (hi - q) * n == hi * n - x;
  }

  // ---------------------------------------------------------------------------
  // Named entries: the keys of an h5py group, in key order

  datatype Named<T> = Named(name: string, value: T)

  function Names<T>(entries: seq<Named<T>>): set<string> {
    set i | 0 <= i < |entries| :: entries[i].name
  }

  /** No key occurs twice (as in every HDF5 group). */
  predicate DistinctNames<T>(entries: seq<Named<T>>) {
    forall i, j :: 0 <= i < j < |entries| ==> entries[i].name != entries[j].name
  }

  /** Index of the first entry stored under `name`. */
  function FirstNamed<T>(entries: seq<Named<T>>, name: string): (r: Option<nat>)
    ensures r.None? ==> forall j :: 0 <= j < |entries| ==> entries[j].name != name
    ensures r.Some? ==> r.value < |entries| && entries[r.value].name == name
    ensures r.Some? ==> forall j :: 0 <= j < r.value ==> entries[j].name != name
  {
    if |entries| == 0 then None
    else if entries[0].name == name then Some(0)
    else
      match FirstNamed(entries[1..], name)
      case None => None
      case Some(k) => Some(k + 1)
  }

  /** Index of the first entry whose name matches a shell-style pattern. */
  function FirstMatchingIndex<T>(entries: seq<Named<T>>, pattern: string): (r: Option<nat>)
    ensures r.None? ==> forall j :: 0 <= j < |entries| ==> !Glob.Match(pattern, entries[j].name)
    ensures r.Some? ==> r.value < |entries| && Glob.Match(pattern, entries[r.value].name)
    ensures r.Some? ==> forall j :: 0 <= j < r.value ==> !Glob.Match(pattern, entries[j].name)
  {
    if |entries| == 0 then None
    else if Glob.Match(pattern, entries[0].name) then Some(0)
    else
      match FirstMatchingIndex(entries[1..], pattern)
      case None => None
      case Some(k) => Some(k + 1)
  }

  /** `group.get(name)`: the entry stored under exactly this name, if any (the first, were names repeated). */
  function Lookup<T>(entries: seq<Named<T>>, name: string): (r: Option<T>)
    ensures r.Some? <==> name in Names(entries)
    ensures r.Some? ==> FirstNamed(entries, name).Some? && entries[FirstNamed(entries, name).value].value == r.value
  {
    match FirstNamed(entries, name)
    case None => None
    case Some(k) => Some(entries[k].value)
  }

  /** The first entry, in key order, whose name matches a shell-style pattern. */
  function FirstMatching<T>(entries: seq<Named<T>>, pattern: string): (r: Option<Named<T>>)
    ensures r.None? <==> forall j :: 0 <= j < |entries| ==> !Glob.Match(pattern, entries[j].name)
    ensures r.Some? ==> FirstMatchingIndex(entries, pattern).Some? &&
                          entries[FirstMatchingIndex(entries, pattern).value] == r.value
  {
    match FirstMatchingIndex(entries, pattern)
    case None => None
    case Some(k) => Some(entries[k])
  }

  lemma NamesOfTail<T>(entries: seq<Named<T>>)
    requires |entries| > 0
    ensures Names(entries) == {entries[0].name} + Names(entries[1..])
  {
    forall n | n in Names(entries) ensures n in {entries[0].name} + Names(entries[1..]) {
      var i :| 0 <= i < |entries| && entries[i].name == n;
      if i > 0 {
        assert entries[1..][i - 1].name == n;
      }
    }
    forall n | n in Names(entries[1..]) ensures n in Names(entries) {
      var i :| 0 <= i < |entries[1..]| && entries[1..][i].name == n;
      assert entries[i + 1].name == n;
    }
  }

  /** A lookup in a list with one more entry in front: that entry if the name is its own, else a lookup in the rest. */
  lemma LookupCons<T>(e: Named<T>, rest: seq<Named<T>>, name: string)
    ensures Lookup([e] + rest, name) == if e.name == name then Some(e.value) else Lookup(rest, name)
  {
    var s := [e] + rest;
    assert s[1..] == rest;
    if e.name != name {
      NamesOfTail(s);
    }
  }

  /** In a list with distinct names, the entry at index k is what a lookup of its name finds. */
  lemma LookupDistinct<T>(entries: seq<Named<T>>, k: nat)
    requires DistinctNames(entries) && k < |entries|
    ensures Lookup(entries, entries[k].name) == Some(entries[k].value)
  {
    var f := FirstNamed(entries, entries[k].name);
    assert f.Some? && f.value == k;
  }

  // ---------------------------------------------------------------------------
  // Keeping the entries whose value is present

  /** The entries whose value is present, unwrapped, in order (the script's `valid_events`). */
  function Present<T>(obs: seq<Named<Option<T>>>): (valid: seq<Named<T>>)
    ensures |valid| <= |obs|
    ensures forall i :: 0 <= i < |valid| ==> valid[i].name in Names(obs)
  {
    if |obs| == 0 then []
    else
      var rest := Present(obs[1..]);
      NamesOfTail(obs);
      match obs[0].value
      case None => rest
      case Some(v) => [Named(obs[0].name, v)] + rest
  }

  /** Filtering an entry in front of a list: its unwrapped value if present, then the rest. */
  lemma PresentCons<T>(e: Named<Option<T>>, rest: seq<Named<Option<T>>>)
    ensures Present([e] + rest) == (if e.value.Some? then [Named(e.name, e.value.value)] else []) + Present(rest)
  {
    assert ([e] + rest)[1..] == rest;
  }

  /** Filtering is local: the present entries of two runs are those of each, concatenated. */
  lemma {:induction false} PresentAppend<T>(a: seq<Named<Option<T>>>, b: seq<Named<Option<T>>>)
    ensures Present(a + b) == Present(a) + Present(b)
  {
    if |a| == 0 {
      assert a + b == b;
    } else {
      assert (a + b)[0] == a[0] && (a + b)[1..] == a[1..] + b;
      PresentAppend(a[1..], b);
    }
  }

  /** A present entry is kept, with its value unwrapped. */
  lemma {:induction false} PresentIndex<T>(obs: seq<Named<Option<T>>>, j: nat) returns (k: nat)
    requires j < |obs| && obs[j].value.Some?
    ensures k < |Present(obs)|
    ensures Present(obs)[k] == Named(obs[j].name, obs[j].value.value)
  {
    if j == 0 {
      k := 0;
    } else {
      assert obs[1..][j - 1] == obs[j];
      k := PresentIndex(obs[1..], j - 1);
      if obs[0].value.Some? {
        k := k + 1;
      }
    }
  }

  /** Every kept entry comes from a present entry carrying its value. */
  lemma {:induction false} PresentOrigin<T>(obs: seq<Named<Option<T>>>, k: nat) returns (j: nat)
    requires k < |Present(obs)|
    ensures j < |obs|
    ensures obs[j] == Named(Present(obs)[k].name, Some(Present(obs)[k].value))
  {
    if obs[0].value.Some? && k == 0 {
      j := 0;
    } else {
      j := PresentOrigin(obs[1..], if obs[0].value.Some? then k - 1 else k);
      assert obs[1..][j] == obs[j + 1];
      j := j + 1;
    }
  }

  /** Nothing is kept exactly when every value is absent. */
  lemma NothingPresent<T>(obs: seq<Named<Option<T>>>)
    ensures |Present(obs)| == 0 <==> forall j :: 0 <= j < |obs| ==> obs[j].value.None?
  {
    if |Present(obs)| > 0 {
      var j := PresentOrigin(obs, 0);
    } else {
      forall j | 0 <= j < |obs| ensures obs[j].value.None? {
        if obs[j].value.Some? {
          var k := PresentIndex(obs, j);
        }
      }
    }
  }

  /** Distinct names stay distinct among the kept entries. */
  lemma {:induction false} PresentDistinct<T>(obs: seq<Named<Option<T>>>)
    requires DistinctNames(obs)
    ensures DistinctNames(Present(obs))
  {
    if |obs| > 0 {
      var tail := obs[1..];
      assert DistinctNames(tail) by {
        forall i, j | 0 <= i < j < |tail| ensures tail[i].name != tail[j].name {
          assert tail[i] == obs[i + 1] && tail[j] == obs[j + 1];
        }
      }
      PresentDistinct(tail);
      assert obs[0].name !in Names(tail);
    }
  }

  /** In a list with distinct names, looking up an entry's name among the present entries finds its value or nothing. */
  lemma {:induction false} LookupPresent<T>(obs: seq<Named<Option<T>>>, i: nat)
    requires DistinctNames(obs) && i < |obs|
    ensures Lookup(Present(obs), obs[i].name) == obs[i].value
  {
    var tail := obs[1..];
    var rest := Present(tail);
    assert DistinctNames(tail) by {
      forall a, b | 0 <= a < b < |tail| ensures tail[a].name != tail[b].name {
        assert tail[a] == obs[a + 1] && tail[b] == obs[b + 1];
      }
    }
    if obs[0].value.Some? {
      LookupCons(Named(obs[0].name, obs[0].value.value), rest, obs[i].name);
    }
    if i == 0 {
      if obs[0].value.None? {
        assert obs[0].name !in Names(tail);
      }
    } else {
      assert tail[i - 1] == obs[i];
      LookupPresent(tail, i - 1);
    }
  }

  // ---------------------------------------------------------------------------
  // The database

  /** One event's datasets, by name. */
  type Group = seq<Named<Matrix<Cell>>>

  /** Every event group, by event id. */
  type Database = seq<Named<Group>>
}
