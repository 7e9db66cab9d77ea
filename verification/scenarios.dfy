/**
  A worked instance of the binning loop: ten events with observables
  100, 90, ..., 10 split at 0 %, 50 % and 100 %. The event sitting exactly on the
  50 % threshold (observable 50) goes to the peripheral class, since a class
  other than the last excludes its lower threshold.
 */
module Scenarios {
  import opened Datasets
  import opened Sorting
  import opened Binning
  import Labels

  const HalfCuts: seq<nat> := [0, 50, 100]

  lemma HalfCutsAreStandard()
    ensures StandardCuts(HalfCuts)
  {
  }

  /** The labels the script writes for the two halves. */
  lemma HalfLabels()
    ensures PairLabel(HalfCuts, 0) == "C0-50"
    ensures PairLabel(HalfCuts, 1) == "C50-100"
  {
    assert Labels.Decimal(0) == "0";
    assert Labels.Decimal(50) == "50";
    assert Labels.Decimal(100) == "100";
  }

  /** The k-th event has observable 100 - 10 k. */
  predicate TenEvents(valid: seq<Named<real>>) {
    && |valid| == 10
    && DistinctNames(valid)
    && forall k :: 0 <= k < 10 ==> valid[k].value == (100 - 10 * k) as real
  }

  /** The observables of the ten events are already in descending order, so sorting keeps them. */
  lemma TenEventsSorted(valid: seq<Named<real>>)
    requires TenEvents(valid)
    ensures SortDescending(Values(valid)) == Values(valid)
    ensures Values(valid)[0] == 100.0 && Values(valid)[5] == 50.0 && Values(valid)[9] == 10.0
  {
    var vs := Values(valid);
    assert Descending(vs);
    DescendingIsUnique(SortDescending(vs), vs);
  }

  /** The mapping has the two half classes, each holding its cut pair's members. */
  lemma TenEventsClasses(valid: seq<Named<real>>)
    requires TenEvents(valid)
    ensures Classify(valid, HalfCuts).Keys == {"C0-50", "C50-100"}
    ensures Classify(valid, HalfCuts)["C0-50"] == BinMembers(valid, Values(valid), 0, 50)
    ensures Classify(valid, HalfCuts)["C50-100"] == BinMembers(valid, Values(valid), 50, 100)
  {
    var vs := Values(valid);
    HalfCutsAreStandard();
    HalfLabels();
    TenEventsSorted(valid);
    assert Classify(valid, HalfCuts) == BinPairs(valid, vs, HalfCuts, 2);
    assert LabelsUpTo(HalfCuts, 2) == {PairLabel(HalfCuts, 0), PairLabel(HalfCuts, 1)};
    BinPairsContent(valid, vs, HalfCuts, 2, 0);
    BinPairsContent(valid, vs, HalfCuts, 2, 1);
  }

  /** Thresholds of the halves: the upper half is (50, 100], the lower half [10, 50]. */
  lemma TenEventsThresholds(valid: seq<Named<real>>)
    requires TenEvents(valid)
    ensures BinThresholds(Values(valid), 0, 50) == Thresholds(100.0, 50.0, false)
    ensures BinThresholds(Values(valid), 50, 100) == Thresholds(50.0, 10.0, true)
  {
    TenEventsSorted(valid);
  }

  /**
    The upper half holds exactly the five highest events, the lower half the
    other five, including the event whose observable equals the 50 % threshold.
   */
  lemma TenEventsSplitInHalves(valid: seq<Named<real>>, k: nat)
    requires TenEvents(valid) && k < 10
    ensures Classify(valid, HalfCuts).Keys == {"C0-50", "C50-100"}
    ensures valid[k].name in Classify(valid, HalfCuts)["C0-50"] <==> k < 5
    ensures valid[k].name in Classify(valid, HalfCuts)["C50-100"] <==> k >= 5
  {
    TenEventsClasses(valid);
    TenEventsThresholds(valid);
    LookupDistinct(valid, k);
    assert valid[k].name in Names(valid);
  }

  // ---------------------------------------------------------------------------
  // Ties at a threshold

  /** Five sorted observables with a run of three equal values, cut into four classes. */
  const TieValues: seq<real> := [3.0, 2.0, 2.0, 2.0, 1.0]
  const TieCuts: seq<nat> := [0, 20, 40, 60, 100]

  lemma TieCutsAreStandard()
    ensures StandardCuts(TieCuts)
  {
  }

  /**
    The events tied at the first class's lower threshold skip the two empty
    middle classes and land in the last class, which is closed below and so
    also holds the event at its own lower threshold.
   */
  lemma TiedValuesSkipClasses(i: nat)
    requires i < |TieCuts| - 1
    ensures InBin(3.0, BinThresholds(TieValues, TieCuts[i], TieCuts[i + 1])) <==> i == 0
    ensures InBin(2.0, BinThresholds(TieValues, TieCuts[i], TieCuts[i + 1])) <==> i == 3
    ensures InBin(1.0, BinThresholds(TieValues, TieCuts[i], TieCuts[i + 1])) <==> i == 3
    ensures BinThresholds(TieValues, TieCuts[0], TieCuts[1]).low == 2.0
  {
  }
}
