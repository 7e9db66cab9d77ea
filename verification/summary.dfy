/**
  The per-event reducers of `utilities/collect_event_summary_to_h5.py`: flow
  harmonics, mean transverse momentum and multiplicity from one spectrum array,
  and the binary-collision and participant counts from the first arrays whose
  names match `NcollList*.dat` and `NpartList*.dat`.
 */
module EventSummary {
  import opened Wrappers
  import opened Datasets
  import opened Extraction
  import Glob

  /** What a reducer that may raise gives: nothing (the array is missing), an exception, or a value. */
  datatype Outcome<T> = Missing | Raises | Found(value: T)

  /** `complex(re, im)`. */
  datatype Complex = Complex(re: real, im: real)

  /** The name of the spectrum array. */
  const VnFile: string := "particle_9999_vndata_diff_eta_-0.5_0.5.dat"

  // ---------------------------------------------------------------------------
  // Flow harmonics

  /**
    How many harmonics are read from an array of w columns: the length of
    `range(1, min(10, (w - 1) // 2))`. For a positive divisor Python's floor
    division and Dafny's Euclidean division agree, also on w - 1 = -1.
   */
  function HarmonicCount(w: nat): nat {
    var top := if (w - 1) / 2 < 10 then (w - 1) / 2 else 10;
    if top > 1 then top - 1 else 0
  }

  /** At most nine harmonics are read, none from fewer than five columns, and the columns read exist. */
  lemma HarmonicCountBounds(w: nat)
    ensures HarmonicCount(w) <= 9
    ensures HarmonicCount(w) == 0 <==> w < 5
    ensures HarmonicCount(w) > 0 ==> 2 * HarmonicCount(w) + 1 < w
  {
  }

  /** Harmonic k + 1 of the first row: the pair of columns 2(k + 1) and 2(k + 1) + 1. */
  function Harmonics(m: Matrix<real>): (vn: seq<Complex>)
    requires HarmonicCount(m.width) == 0 || |m.rows| >= 1
    ensures |vn| == HarmonicCount(m.width)
    ensures forall k :: 0 <= k < |vn| ==> vn[k] == Complex(m.rows[0][2 * (k + 1)], m.rows[0][2 * (k + 1) + 1])
  {
    HarmonicCountBounds(m.width);
    seq(HarmonicCount(m.width), k requires 0 <= k < HarmonicCount(m.width) =>
          Complex(m.rows[0][2 * (k + 1)], m.rows[0][2 * (k + 1) + 1]))
  }

  // ---------------------------------------------------------------------------
  // Mean transverse momentum and multiplicity

  /** `pT * dN`: the element-wise product of two columns. */
  function Products(p: seq<real>, d: seq<real>): (r: seq<real>)
    requires |p| == |d|
    ensures |r| == |p|
  {
    seq(|p|, i requires 0 <= i < |p| => p[i] * d[i])
  }

  /** `np.sum(pT * dN)`: the weighted sum of two columns. */
  function Dot(p: seq<real>, d: seq<real>): real
    requires |p| == |d|
  {
    Sum(Products(p, d))
  }

  /** `sum(pT*dN)/sum(dN)` when `sum(dN) > 0`, else 0. */
  function MeanPT(p: seq<real>, d: seq<real>): real
    requires |p| == |d|
  {
    if Sum(d) > 0.0 then Dot(p, d) / Sum(d) else 0.0
  }

  /** Every element of s times c. */
  function Scale(c: real, s: seq<real>): (r: seq<real>)
    ensures |r| == |s|
  {
    seq(|s|, i requires 0 <= i < |s| => c * s[i])
  }

  lemma Distribute(c: real, a: real, b: real)
    ensures c * (a + b) == c * a + c * b
  {
  }

  /** Scaling every element scales the sum. */
  lemma {:induction false} SumScale(c: real, s: seq<real>)
    ensures Sum(Scale(c, s)) == c * Sum(s)
  {
    if |s| > 0 {
      forall i | 0 <= i < |s| - 1
        ensures Scale(c, s)[1..][i] == Scale(c, s[1..])[i]
      {
        assert s[1..][i] == s[i + 1];
      }
      assert Scale(c, s)[1..] == Scale(c, s[1..]);
      SumScale(c, s[1..]);
      Distribute(c, s[0], Sum(s[1..]));
    }
  }

  /** The sum is monotone in every element. */
  lemma {:induction false} SumMonotone(a: seq<real>, b: seq<real>)
    requires |a| == |b|
    requires forall i :: 0 <= i < |a| ==> a[i] <= b[i]
    ensures Sum(a) <= Sum(b)
  {
    if |a| > 0 {
      assert forall i :: 0 <= i < |a| - 1 ==> a[1..][i] == a[i + 1] && b[1..][i] == b[i + 1];
      SumMonotone(a[1..], b[1..]);
    }
  }

  /** A weight times a value in [lo, hi] lies between the weight times lo and times hi. */
  lemma ScaledBounds(p: seq<real>, d: seq<real>, lo: real, hi: real, i: nat)
    requires |p| == |d| && i < |d|
    requires 0.0 <= d[i] && lo <= p[i] <= hi
    ensures Scale(lo, d)[i] <= Products(p, d)[i] <= Scale(hi, d)[i]
  {
    var x, w := p[i], d[i];
    assert (x - lo) * w >= 0.0;
    assert (hi - x) * w >= 0.0;
  }

  /** With non-negative weights and every momentum in [lo, hi], the weighted sum lies between lo and hi times the total weight. */
  lemma WeightedSumBounds(p: seq<real>, d: seq<real>, lo: real, hi: real)
    requires |p| == |d|
    requires forall i :: 0 <= i < |d| ==> 0.0 <= d[i] && lo <= p[i] <= hi
    ensures lo * Sum(d) <= Dot(p, d) <= hi * Sum(d)
  {
    var pd := Products(p, d);
    forall i | 0 <= i < |d|
      ensures Scale(lo, d)[i] <= pd[i] <= Scale(hi, d)[i]
    {
      ScaledBounds(p, d, lo, hi, i);
    }
    SumMonotone(Scale(lo, d), pd);
    SumMonotone(pd, Scale(hi, d));
    SumScale(lo, d);
    SumScale(hi, d);
  }

  /** The mean momentum of a non-negative spectrum lies within the momentum range. */
  lemma MeanPTWithinRange(p: seq<real>, d: seq<real>, lo: real, hi: real)
    requires |p| == |d| && Sum(d) > 0.0
    requires forall i :: 0 <= i < |d| ==> 0.0 <= d[i] && lo <= p[i] <= hi
    ensures lo <= MeanPT(p, d) <= hi
  {
    WeightedSumBounds(p, d, lo, hi);
    DivBounds(Dot(p, d), Sum(d), lo, hi);
  }

  /** Mean momentum times multiplicity is the weighted sum, whenever the multiplicity is positive. */
  lemma MeanPTTimesMultiplicity(p: seq<real>, d: seq<real>)
    requires |p| == |d| && Sum(d) > 0.0
    ensures MeanPT(p, d) * Sum(d) == Dot(p, d)
  {
  }

  /** A spectrum with no positive total has mean momentum 0. */
  lemma MeanPTOfEmptySpectrum(p: seq<real>, d: seq<real>)
    requires |p| == |d| && Sum(d) <= 0.0
    ensures MeanPT(p, d) == 0.0
  {
  }

  // ---------------------------------------------------------------------------
  // `get_vn_meanpT_mult`

  datatype VnSummary = VnSummary(vn: seq<Complex>, meanPT: real, multiplicity: real)

  /** The raw array raises: fewer than two columns, or harmonics to read from an array without rows. */
  predicate VnRaises(m: Matrix<Cell>) {
    m.width < 2 || (HarmonicCount(m.width) > 0 && |m.rows| == 0)
  }

  /** The harmonics, mean momentum and multiplicity of one event, from its cleaned spectrum array. */
  function VnMeanPTMult(group: Group): (r: Outcome<VnSummary>)
    ensures r.Missing? <==> VnFile !in Names(group)
    ensures r.Raises? <==> VnFile in Names(group) && VnRaises(Lookup(group, VnFile).value)
    ensures r.Found? ==> |r.value.vn| == HarmonicCount(Lookup(group, VnFile).value.width)
  {
    match Lookup(group, VnFile)
    case None => Missing
    case Some(raw) =>
      if VnRaises(raw) then Raises
      else
        var m := Clean(raw);
        Found(VnSummary(Harmonics(m), MeanPT(Column(m, 0), Column(m, 1)), Sum(Column(m, 1))))
  }

  /** Harmonic k + 1 is the pair of first-row entries at columns 2(k + 1) and 2(k + 1) + 1 of the cleaned spectrum. */
  lemma VnHarmonicsContents(group: Group, k: nat)
    requires VnMeanPTMult(group).Found? && k < |VnMeanPTMult(group).value.vn|
    ensures var m := Clean(Lookup(group, VnFile).value);
            VnMeanPTMult(group).value.vn[k] == Complex(m.rows[0][2 * (k + 1)], m.rows[0][2 * (k + 1) + 1])
  {
  }

  /**
    The multiplicity is the sum of column 1 of the cleaned spectrum; the mean
    momentum times it is the column-0-weighted sum when it is positive, and the
    mean momentum is 0 otherwise.
   */
  lemma VnMomentsContents(group: Group)
    requires VnMeanPTMult(group).Found?
    ensures var m := Clean(Lookup(group, VnFile).value);
            && m.width >= 2
            && VnMeanPTMult(group).value.multiplicity == Sum(Column(m, 1))
            && (Sum(Column(m, 1)) > 0.0 ==>
                  VnMeanPTMult(group).value.meanPT * VnMeanPTMult(group).value.multiplicity == Dot(Column(m, 0), Column(m, 1)))
            && (Sum(Column(m, 1)) <= 0.0 ==> VnMeanPTMult(group).value.meanPT == 0.0)
  {
  }

  // ---------------------------------------------------------------------------
  // `get_ncoll_npart`

  /** Number of binary collisions: the row count of the first array matching `NcollList*.dat`. */
  function Ncoll(group: Group): (r: Option<nat>)
    ensures r.None? <==> forall j :: 0 <= j < |group| ==> !Glob.Match(Glob.NcollPattern, group[j].name)
    ensures r.Some? ==> r.value == |group[FirstMatchingIndex(group, Glob.NcollPattern).value].value.rows|
  {
    match FirstMatching(group, Glob.NcollPattern)
    case None => None
    case Some(e) => Some(|e.value.rows|)
  }

  /** Python's `int` of a float: truncation toward zero. */
  function Truncate(x: real): (n: int)
    ensures x >= 0.0 ==> 0 <= n && n as real <= x < n as real + 1.0
    ensures x < 0.0 ==> n <= 0 && n as real - 1.0 < x <= n as real
  {
    if x >= 0.0 then x.Floor else -((-x).Floor)
  }

  /** Some entry of column c is NaN (the sum is NaN and `int` of it raises). */
  predicate ColumnHasNaN(m: Matrix<Cell>, c: nat)
    requires c < m.width
  {
    exists i :: 0 <= i < |m.rows| && m.rows[i][c].NaN?
  }

  /**
    Number of participants: the truncated sum of column 3 of the first array
    matching `NpartList*.dat`. No NaN cleaning happens here: a NaN in the
    column, like a missing column, raises.
   */
  function Npart(group: Group): (r: Outcome<int>)
    ensures r.Missing? <==> forall j :: 0 <= j < |group| ==> !Glob.Match(Glob.NpartPattern, group[j].name)
    ensures r.Raises? ==> FirstMatching(group, Glob.NpartPattern).Some?
    ensures r.Raises? <==>
              FirstMatching(group, Glob.NpartPattern).Some? &&
              var m := FirstMatching(group, Glob.NpartPattern).value.value;
              m.width < 4 || ColumnHasNaN(m, 3)
    ensures r.Found? ==>
              r.value == Truncate(Sum(Column(Clean(FirstMatching(group, Glob.NpartPattern).value.value), 3)))
  {
    match FirstMatching(group, Glob.NpartPattern)
    case None => Missing
    case Some(e) =>
      if e.value.width < 4 || ColumnHasNaN(e.value, 3) then Raises
      else Found(Truncate(Sum(Column(Clean(e.value), 3))))
  }

  // ---------------------------------------------------------------------------
  // Agreement with the split script's Ncoll and Npart configurations

  /** The summary's Ncoll is the split script's Ncoll observable, as an integer. */
  lemma NcollAgreesWithExtraction(group: Group)
    ensures Extract(group, NcollConfig) == if Ncoll(group).Some? then Some(Ncoll(group).value as real) else None
  {
    assert Glob.HasWildcard(Glob.NcollPattern) by {
      assert Glob.NcollPattern[9] == '*';
    }
    if FirstMatching(group, Glob.NcollPattern).Some? {
      FirstMatchIsFirstOfItsName(group, Glob.NcollPattern);
    }
  }

  /**
    When the summary finds Npart, the split script's Npart observable is the
    untruncated column sum it comes from; when no array matches, both are absent.
   */
  lemma NpartAgreesWithExtraction(group: Group)
    ensures Npart(group).Missing? ==> Extract(group, NpartConfig).None?
    ensures Npart(group).Found? ==>
              Extract(group, NpartConfig).Some? && Npart(group).value == Truncate(Extract(group, NpartConfig).value)
  {
    assert Glob.HasWildcard(Glob.NpartPattern) by {
      assert Glob.NpartPattern[9] == '*';
    }
    if FirstMatching(group, Glob.NpartPattern).Some? {
      FirstMatchIsFirstOfItsName(group, Glob.NpartPattern);
    }
  }
}
