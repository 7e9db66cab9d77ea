/**
  The percentile binning loop of `utilities/split_into_centralities_flexible.py`
  (one configuration): thresholds are read off the descending-sorted observables
  at the positions `int(N * c / 100.)`, and each event joins the classes whose
  value interval holds its own observable.

  Cut points are integer percentages, and `int(N * c / 100.)` is modelled as
  `N * c / 100` in integer division, which agrees for N up to 2^46.
 */
module Binning {
  import opened Wrappers
  import opened Datasets
  import opened Sorting
  import Labels

  /** Position of a bin's upper threshold: `int(N * c / 100.)`. */
  function UpperIndex(n: nat, c: nat): nat {
    n * c / 100
  }

  /** Position of a bin's lower threshold: the last value when c is 100, else `min(N - 1, int(N * c / 100.))`. */
  function LowerIndex(n: nat, c: nat): (k: nat)
    requires n >= 1
    ensures k < n
  {
    if c == 100 then n - 1
    else if n * c / 100 < n - 1 then n * c / 100
    else n - 1
  }

  lemma UpperIndexInRange(n: nat, c: nat)
    requires n >= 1 && c < 100
    ensures UpperIndex(n, c) < n
  {
    assert n * c <= n * 99;
  }

  lemma UpperIndexMonotone(n: nat, c: nat, d: nat)
    requires c <= d
    ensures UpperIndex(n, c) <= UpperIndex(n, d)
  {
    assert n * c <= n * d;
  }

  /** A cut pair whose upper percentage is below its lower one gets no class. */
  predicate Skipped(c0: nat, c1: nat) {
    c1 < c0
  }

  /** Cut lists the script runs without an index error: every pair it keeps starts below 100 %. */
  predicate RunnableCuts(cuts: seq<nat>) {
    forall i :: 0 <= i < |cuts| - 1 && !Skipped(cuts[i], cuts[i + 1]) ==> cuts[i] < 100
  }

  /** Strictly ascending cut points from 0 % to 100 %. */
  predicate StandardCuts(cuts: seq<nat>) {
    && |cuts| >= 2
    && cuts[0] == 0
    && cuts[|cuts| - 1] == 100
    && (forall i, j :: 0 <= i < j < |cuts| ==> cuts[i] < cuts[j])
    && RunnableCuts(cuts)
  }

  /** The two threshold values of one class, and whether it is closed at the bottom (the 100 % class). */
  datatype Thresholds = Thresholds(high: real, low: real, closedBelow: bool)

  function BinThresholds(sv: seq<real>, c0: nat, c1: nat): (t: Thresholds)
    requires |sv| >= 1 && c0 < 100
  {
    UpperIndexInRange(|sv|, c0);
    Thresholds(sv[UpperIndex(|sv|, c0)], sv[LowerIndex(|sv|, c1)], c1 == 100)
  }

  /** Membership: `low < v <= high`, or `low <= v <= high` for the class ending at 100 %. */
  predicate InBin(v: real, t: Thresholds) {
    (if t.closedBelow then t.low <= v else t.low < v) && v <= t.high
  }

  // ---------------------------------------------------------------------------
  // Classes of a standard cut list, by index

  /** The thresholds of class i (cut pair i, i + 1) of a standard cut list. */
  function Bin(sv: seq<real>, cuts: seq<nat>, i: nat): Thresholds
    requires |sv| >= 1 && StandardCuts(cuts) && i < |cuts| - 1
  {
    BinThresholds(sv, cuts[i], cuts[i + 1])
  }

  /** Below the last class, a class's lower threshold is the next class's upper threshold, excluded. */
  lemma AdjacentBinsMeet(sv: seq<real>, cuts: seq<nat>, i: nat)
    requires |sv| >= 1 && StandardCuts(cuts) && i + 1 < |cuts| - 1
    ensures Bin(sv, cuts, i).low == Bin(sv, cuts, i + 1).high
    ensures !Bin(sv, cuts, i).closedBelow
  {
    UpperIndexInRange(|sv|, cuts[i + 1]);
  }

  /** Upper thresholds do not increase from one class to the next. */
  lemma HighsDescend(sv: seq<real>, cuts: seq<nat>, i: nat, j: nat)
    requires Descending(sv) && |sv| >= 1 && StandardCuts(cuts) && i <= j < |cuts| - 1
    ensures Bin(sv, cuts, j).high <= Bin(sv, cuts, i).high
  {
    UpperIndexMonotone(|sv|, cuts[i], cuts[j]);
    UpperIndexInRange(|sv|, cuts[j]);
  }

  lemma {:induction false} BinFromHere(sv: seq<real>, cuts: seq<nat>, v: real, j: nat)
    requires Descending(sv) && |sv| >= 1 && StandardCuts(cuts) && j < |cuts| - 1
    requires sv[|sv| - 1] <= v <= Bin(sv, cuts, j).high
    ensures exists i :: j <= i < |cuts| - 1 && InBin(v, Bin(sv, cuts, i))
    decreases |cuts| - j
  {
    if j == |cuts| - 2 {
      assert InBin(v, Bin(sv, cuts, j));
    } else {
      AdjacentBinsMeet(sv, cuts, j);
      if v > Bin(sv, cuts, j).low {
        assert InBin(v, Bin(sv, cuts, j));
      } else {
        BinFromHere(sv, cuts, v, j + 1);
      }
    }
  }

  /** Every value from the smallest to the largest observable falls in some class. */
  lemma BinExists(sv: seq<real>, cuts: seq<nat>, v: real)
    requires Descending(sv) && |sv| >= 1 && StandardCuts(cuts)
    requires sv[|sv| - 1] <= v <= sv[0]
    ensures exists i :: 0 <= i < |cuts| - 1 && InBin(v, Bin(sv, cuts, i))
  {
    BinFromHere(sv, cuts, v, 0);
  }

  /** A value at least as high as another never lands in a later (more peripheral) class. */
  lemma BinOrder(sv: seq<real>, cuts: seq<nat>, a: real, b: real, i: nat, j: nat)
    requires Descending(sv) && |sv| >= 1 && StandardCuts(cuts)
    requires i < |cuts| - 1 && j < |cuts| - 1
    requires a >= b && InBin(a, Bin(sv, cuts, i)) && InBin(b, Bin(sv, cuts, j))
    ensures i <= j
  {
    if j < i {
      AdjacentBinsMeet(sv, cuts, j);
      HighsDescend(sv, cuts, j + 1, i);
    }
  }

  // ---------------------------------------------------------------------------
  // The class mapping of one configuration

  /** What the mapping stores per event: `centrality_range` and `centrality_value`. */
  datatype Placement = Placement(rangeLow: real, rangeHigh: real, value: real)

  /** Event id to placement, for one class. */
  type EventMap = map<string, Placement>

  /** Class label to its events, for one configuration. */
  type ClassMap = map<string, EventMap>

  /** A percentage as the fraction the mapping stores (`c / 100.0`). */
  function Fraction(c: nat): real {
    c as real / 100.0
  }

  function Values(valid: seq<Named<real>>): (vs: seq<real>)
    ensures |vs| == |valid|
    ensures forall i :: 0 <= i < |valid| ==> vs[i] == valid[i].value
  {
    seq(|valid|, i requires 0 <= i < |valid| => valid[i].value)
  }

  /** The events of one cut pair: those whose observable lies in the pair's interval. */
  function BinMembers(valid: seq<Named<real>>, sv: seq<real>, c0: nat, c1: nat): (m: EventMap)
    requires |sv| >= 1 && c0 < 100
    ensures forall id :: id in m <==>
              id in Names(valid) && InBin(Lookup(valid, id).value, BinThresholds(sv, c0, c1))
    ensures forall id :: id in m ==> m[id] == Placement(Fraction(c0), Fraction(c1), Lookup(valid, id).value)
  {
    var t := BinThresholds(sv, c0, c1);
    map id | id in Names(valid) && InBin(Lookup(valid, id).value, t) ::
      Placement(Fraction(c0), Fraction(c1), Lookup(valid, id).value)
  }

  /** Cut pair i is not skipped. */
  predicate Kept(cuts: seq<nat>, i: nat)
    requires i + 1 < |cuts|
  {
    !Skipped(cuts[i], cuts[i + 1])
  }

  /** The label `C{c_i}-{c_(i+1)}` of cut pair i. */
  function PairLabel(cuts: seq<nat>, i: nat): string
    requires i + 1 < |cuts|
  {
    Labels.BinLabel(cuts[i], cuts[i + 1])
  }

  /** The labels the first k cut pairs create, in loop order (skipped pairs create none). */
  function LabelsUpTo(cuts: seq<nat>, k: nat): set<string>
    requires k == 0 || k < |cuts|
  {
    if k == 0 then {}
    else LabelsUpTo(cuts, k - 1) + (if Kept(cuts, k - 1) then {PairLabel(cuts, k - 1)} else {})
  }

  /** A label is created by the first k cut pairs exactly when one of them is kept and carries it. */
  lemma {:induction false} LabelsUpToMeaning(cuts: seq<nat>, k: nat, l: string)
    requires k == 0 || k < |cuts|
    ensures l in LabelsUpTo(cuts, k) <==> exists i :: 0 <= i < k && Kept(cuts, i) && l == PairLabel(cuts, i)
  {
    if k > 0 {
      LabelsUpToMeaning(cuts, k - 1, l);
      if Kept(cuts, k - 1) && l == PairLabel(cuts, k - 1) {
        assert exists i :: 0 <= i < k && Kept(cuts, i) && l == PairLabel(cuts, i);
      }
    }
  }

  /** Every stored event is a valid one, stored with its own observable. */
  predicate StoresOwnValues(valid: seq<Named<real>>, cm: ClassMap) {
    forall l, id :: l in cm && id in cm[l] ==>
      id in Names(valid) && cm[l][id].value == Lookup(valid, id).value
  }

  /** The same for the events of one class. */
  predicate ClassStoresOwnValues(valid: seq<Named<real>>, members: EventMap) {
    forall id :: id in members ==> id in Names(valid) && members[id].value == Lookup(valid, id).value
  }

  /**
    `setdefault(label, {}).update(members)`: the class under `l` gains the
    members (a member already there is overwritten), every other class is unchanged.
   */
  function AddToClass(cm: ClassMap, l: string, members: EventMap): (r: ClassMap)
    ensures r.Keys == cm.Keys + {l}
    ensures forall id :: id in r[l] <==> id in members || (l in cm && id in cm[l])
    ensures forall id :: id in members ==> r[l][id] == members[id]
    ensures forall id :: l in cm && id in cm[l] && id !in members ==> r[l][id] == cm[l][id]
    ensures forall l' :: l' in cm && l' != l ==> r[l'] == cm[l']
  {
    cm[l := if l in cm then cm[l] + members else members]
  }

  lemma AddingMembersStoresOwnValues(valid: seq<Named<real>>, cm: ClassMap, l: string, members: EventMap)
    requires StoresOwnValues(valid, cm) && ClassStoresOwnValues(valid, members)
    ensures StoresOwnValues(valid, AddToClass(cm, l, members))
  {
  }

  lemma BinMembersStoreOwnValues(valid: seq<Named<real>>, sv: seq<real>, c0: nat, c1: nat)
    requires |sv| >= 1 && c0 < 100
    ensures ClassStoresOwnValues(valid, BinMembers(valid, sv, c0, c1))
  {
  }

  /**
    The mapping after the first k cut pairs: every kept pair's label is present
    (empty or not), and every stored event is a valid one with its own observable.
   */
  function BinPairs(valid: seq<Named<real>>, sv: seq<real>, cuts: seq<nat>, k: nat): (cm: ClassMap)
    requires |sv| >= 1 && RunnableCuts(cuts) && (k == 0 || k < |cuts|)
    ensures cm.Keys == LabelsUpTo(cuts, k)
    ensures StoresOwnValues(valid, cm)
  {
    if k == 0 then map[]
    else
      var prev := BinPairs(valid, sv, cuts, k - 1);
      var i := k - 1;
      if !Kept(cuts, i) then
        prev
      else
        var members := BinMembers(valid, sv, cuts[i], cuts[i + 1]);
        BinMembersStoreOwnValues(valid, sv, cuts[i], cuts[i + 1]);
        AddingMembersStoresOwnValues(valid, prev, PairLabel(cuts, i), members);
        AddToClass(prev, PairLabel(cuts, i), members)
  }

  /** The labels of a standard cut list are pairwise distinct. */
  lemma StandardLabelsDistinct(cuts: seq<nat>, i: nat, j: nat)
    requires StandardCuts(cuts) && i < |cuts| - 1 && j < |cuts| - 1
    ensures PairLabel(cuts, i) == PairLabel(cuts, j) <==> i == j
  {
    if PairLabel(cuts, i) == PairLabel(cuts, j) {
      Labels.LabelInjective(cuts[i], cuts[i + 1], cuts[j], cuts[j + 1]);
    }
  }

  /** The label of pair j is not among those of the pairs before m. */
  lemma {:induction false} LabelNotBefore(cuts: seq<nat>, m: nat, j: nat)
    requires StandardCuts(cuts) && m <= j < |cuts| - 1
    ensures PairLabel(cuts, j) !in LabelsUpTo(cuts, m)
  {
    if m > 0 {
      LabelNotBefore(cuts, m - 1, j);
      StandardLabelsDistinct(cuts, m - 1, j);
    }
  }

  /** In a standard cut list every pair is kept, and its label is new. */
  lemma NewLabel(cuts: seq<nat>, k: nat)
    requires StandardCuts(cuts) && 0 < k < |cuts|
    ensures Kept(cuts, k - 1)
    ensures PairLabel(cuts, k - 1) !in LabelsUpTo(cuts, k - 1)
  {
    LabelNotBefore(cuts, k - 1, k - 1);
  }

  /** One step of the cut-pair loop. */
  lemma BinPairsStep(valid: seq<Named<real>>, sv: seq<real>, cuts: seq<nat>, k: nat)
    requires |sv| >= 1 && RunnableCuts(cuts) && 0 < k < |cuts| && Kept(cuts, k - 1)
    requires PairLabel(cuts, k - 1) !in BinPairs(valid, sv, cuts, k - 1)
    ensures BinPairs(valid, sv, cuts, k)[PairLabel(cuts, k - 1)] == BinMembers(valid, sv, cuts[k - 1], cuts[k])
    ensures forall l :: l in BinPairs(valid, sv, cuts, k - 1) ==>
              BinPairs(valid, sv, cuts, k)[l] == BinPairs(valid, sv, cuts, k - 1)[l]
  {
  }

  /** For a standard cut list, the class under pair i's label holds exactly pair i's members. */
  lemma {:induction false} BinPairsContent(valid: seq<Named<real>>, sv: seq<real>, cuts: seq<nat>, k: nat, i: nat)
    requires |sv| >= 1 && StandardCuts(cuts) && k < |cuts| && i < k
    ensures PairLabel(cuts, i) in BinPairs(valid, sv, cuts, k)
    ensures BinPairs(valid, sv, cuts, k)[PairLabel(cuts, i)] ==
              BinMembers(valid, sv, cuts[i], cuts[i + 1])
  {
    NewLabel(cuts, k);
    BinPairsStep(valid, sv, cuts, k);
    if i < k - 1 {
      BinPairsContent(valid, sv, cuts, k - 1, i);
    }
  }

  /** A member of a cut pair's class lies in the pair's interval and is stored with the pair's lower fraction. */
  lemma MemberPlacement(valid: seq<Named<real>>, sv: seq<real>, c0: nat, c1: nat, id: string)
    requires |sv| >= 1 && c0 < 100 && id in BinMembers(valid, sv, c0, c1)
    ensures InBin(BinMembers(valid, sv, c0, c1)[id].value, BinThresholds(sv, c0, c1))
    ensures BinMembers(valid, sv, c0, c1)[id].rangeLow == Fraction(c0)
  {
  }

  /** Members of two classes, compared: the higher observable is in the class with the lower (or same) percentage. */
  lemma MembersOrdered(valid: seq<Named<real>>, sv: seq<real>, cuts: seq<nat>, i: nat, a: string, j: nat, b: string)
    requires Descending(sv) && |sv| >= 1 && StandardCuts(cuts) && i < |cuts| - 1 && j < |cuts| - 1
    requires a in BinMembers(valid, sv, cuts[i], cuts[i + 1]) && b in BinMembers(valid, sv, cuts[j], cuts[j + 1])
    ensures BinMembers(valid, sv, cuts[i], cuts[i + 1])[a].value >= BinMembers(valid, sv, cuts[j], cuts[j + 1])[b].value ==>
              BinMembers(valid, sv, cuts[i], cuts[i + 1])[a].rangeLow <= BinMembers(valid, sv, cuts[j], cuts[j + 1])[b].rangeLow
    ensures BinMembers(valid, sv, cuts[i], cuts[i + 1])[a].value == BinMembers(valid, sv, cuts[j], cuts[j + 1])[b].value ==>
              i == j
  {
    var pa, pb := BinMembers(valid, sv, cuts[i], cuts[i + 1])[a], BinMembers(valid, sv, cuts[j], cuts[j + 1])[b];
    MemberPlacement(valid, sv, cuts[i], cuts[i + 1], a);
    MemberPlacement(valid, sv, cuts[j], cuts[j + 1], b);
    if pa.value >= pb.value {
      BinOrder(sv, cuts, pa.value, pb.value, i, j);
      assert cuts[i] <= cuts[j];
    }
    if pa.value == pb.value {
      BinOrder(sv, cuts, pb.value, pa.value, j, i);
    }
  }

  /** One configuration's class mapping built from its valid (event id, observable) list. */
  function Classify(valid: seq<Named<real>>, cuts: seq<nat>): (cm: ClassMap)
    requires |valid| >= 1 && RunnableCuts(cuts)
    ensures cm.Keys == LabelsUpTo(cuts, if |cuts| == 0 then 0 else |cuts| - 1)
    ensures StoresOwnValues(valid, cm)
  {
    BinPairs(valid, SortDescending(Values(valid)), cuts, if |cuts| == 0 then 0 else |cuts| - 1)
  }

  // ---------------------------------------------------------------------------
  // Properties of the class mapping for a standard cut list

  /** The cut pair behind a class label of a standard cut list, and the class's contents. */
  lemma ClassIndex(valid: seq<Named<real>>, cuts: seq<nat>, l: string) returns (i: nat)
    requires |valid| >= 1 && StandardCuts(cuts)
    requires l in Classify(valid, cuts)
    ensures i < |cuts| - 1 && l == PairLabel(cuts, i)
    ensures Classify(valid, cuts)[l] == BinMembers(valid, SortDescending(Values(valid)), cuts[i], cuts[i + 1])
  {
    var sv := SortDescending(Values(valid));
    assert Classify(valid, cuts) == BinPairs(valid, sv, cuts, |cuts| - 1);
    assert l in LabelsUpTo(cuts, |cuts| - 1);
    LabelsUpToMeaning(cuts, |cuts| - 1, l);
    i :| 0 <= i < |cuts| - 1 && Kept(cuts, i) && l == PairLabel(cuts, i);
    BinPairsContent(valid, sv, cuts, |cuts| - 1, i);
  }

  /**
    Partition: with a standard cut list, every valid event is in exactly one
    class, stored with its own observable.
   */
  lemma ClassifyPartition(valid: seq<Named<real>>, cuts: seq<nat>, k: nat)
    requires |valid| >= 1 && StandardCuts(cuts) && DistinctNames(valid) && k < |valid|
    ensures exists l :: l in Classify(valid, cuts) && valid[k].name in Classify(valid, cuts)[l] &&
              Classify(valid, cuts)[l][valid[k].name].value == valid[k].value
    ensures forall l, l' ::
              (l in Classify(valid, cuts) && valid[k].name in Classify(valid, cuts)[l] &&
               l' in Classify(valid, cuts) && valid[k].name in Classify(valid, cuts)[l']) ==>
              l == l'
  {
    var cm := Classify(valid, cuts);
    var sv := SortDescending(Values(valid));
    var id := valid[k].name;
    var v := valid[k].value;
    LookupDistinct(valid, k);
    assert id in Names(valid);
    assert v in multiset(Values(valid));
    WithinEnds(sv, v);
    BinExists(sv, cuts, v);
    var i :| 0 <= i < |cuts| - 1 && InBin(v, Bin(sv, cuts, i));
    BinPairsContent(valid, sv, cuts, |cuts| - 1, i);
    var l := PairLabel(cuts, i);
    assert l in cm && id in cm[l];
    forall l1, l2 | l1 in cm && id in cm[l1] && l2 in cm && id in cm[l2] ensures l1 == l2 {
      var i1 := ClassIndex(valid, cuts, l1);
      var i2 := ClassIndex(valid, cuts, l2);
      BinOrder(sv, cuts, v, v, i1, i2);
      BinOrder(sv, cuts, v, v, i2, i1);
    }
  }

  /**
    Monotonicity and ties: a higher observable is never in a class with a larger
    lower percentage, and equal observables always share a class.
   */
  lemma ClassifyMonotone(valid: seq<Named<real>>, cuts: seq<nat>, l1: string, a: string, l2: string, b: string)
    requires |valid| >= 1 && StandardCuts(cuts)
    requires l1 in Classify(valid, cuts) && a in Classify(valid, cuts)[l1]
    requires l2 in Classify(valid, cuts) && b in Classify(valid, cuts)[l2]
    ensures Classify(valid, cuts)[l1][a].value >= Classify(valid, cuts)[l2][b].value ==>
              Classify(valid, cuts)[l1][a].rangeLow <= Classify(valid, cuts)[l2][b].rangeLow
    ensures Classify(valid, cuts)[l1][a].value == Classify(valid, cuts)[l2][b].value ==> l1 == l2
  {
    var cm := Classify(valid, cuts);
    var sv := SortDescending(Values(valid));
    var i := ClassIndex(valid, cuts, l1);
    var j := ClassIndex(valid, cuts, l2);
    MembersOrdered(valid, sv, cuts, i, a, j, b);
  }
}
