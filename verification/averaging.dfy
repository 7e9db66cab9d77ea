/**
  `utilities/centrality_average_h5.py`: choosing the class mappings to use, and
  averaging, for one centrality class, every dataset its member events carry.
  A dataset is averaged elementwise over exactly the member events that hold it,
  after NaN has been replaced by 0.
 */
module Averaging {
  import opened Wrappers
  import opened Datasets
  import opened Binning
  import opened Extraction
  import opened Classification

  // ---------------------------------------------------------------------------
  // Choosing mappings

  /**
    `load_centrality_mapping`: the mapping stored under `key`, or under the first
    key when none is given, together with the key used. A missing key (or an
    empty file when no key is given) raises in the script: here, nothing.
   */
  function LoadCentralityMapping(mappings: seq<Named<ClassMap>>, key: Option<string>): (r: Option<Named<ClassMap>>)
    ensures key.None? ==> (r.Some? <==> |mappings| > 0)
    ensures key.Some? ==> (r.Some? <==> key.value in Names(mappings))
    ensures r.Some? ==> r.value.name in Names(mappings) && Lookup(mappings, r.value.name) == Some(r.value.value)
    ensures r.Some? && key.Some? ==> r.value.name == key.value
  {
    var k := if key.Some? then key.value else if |mappings| > 0 then mappings[0].name else "";
    if key.None? && |mappings| == 0 then None
    else
      match Lookup(mappings, k)
      case None => None
      case Some(cm) => Some(Named(k, cm))
  }

  /** Without a key, the first stored mapping is the one used. */
  lemma DefaultIsFirst(mappings: seq<Named<ClassMap>>)
    requires |mappings| > 0
    ensures LoadCentralityMapping(mappings, None) == Some(mappings[0])
  {
    var f := FirstNamed(mappings, mappings[0].name);
    assert f == Some(0);
  }

  /**
    The mappings the averaging loop walks: the one named on the command line
    (`load_centrality_mapping`), or every stored one (`load_all_centrality_mappings`).
   */
  function SelectMappings(mappings: seq<Named<ClassMap>>, key: Option<string>): (r: Option<seq<Named<ClassMap>>>)
    ensures key.None? ==> r == Some(mappings)
    ensures key.Some? ==> (r.Some? <==> key.value in Names(mappings))
    ensures key.Some? && r.Some? ==> r.value == [Named(key.value, Lookup(mappings, key.value).value)]
  {
    if key.None? then Some(mappings)
    else
      match LoadCentralityMapping(mappings, key)
      case None => None
      case Some(m) => Some([m])
  }

  /**
    Reading back what the split script wrote: loading a configuration's key
    yields that configuration's class mapping, or nothing when it had no valid event.
   */
  lemma LoadsWhatWasClassified(db: Database, configs: seq<Config>, cuts: seq<nat>, i: nat)
    requires RunnableCuts(cuts) && DistinctKeys(configs) && i < |configs|
    ensures LoadCentralityMapping(ClassifyAll(db, configs, cuts), Some(configs[i].key)) ==
              if ClassifyConfig(db, configs[i], cuts).Some?
              then Some(Named(configs[i].key, ClassifyConfig(db, configs[i], cuts).value))
              else None
  {
    MappingOfEachConfig(db, configs, cuts, i);
  }

  // ---------------------------------------------------------------------------
  // Gathering one dataset over the events of a class

  /** The cleaned array `ds` of event `id`, when the event is in the file and holds it. */
  function Holding(db: Database, id: string, ds: string): (r: Option<Matrix<real>>)
    ensures r.Some? <==> Lookup(db, id).Some? && Lookup(Lookup(db, id).value, ds).Some?
    ensures r.Some? ==> r.value == Clean(Lookup(Lookup(db, id).value, ds).value)
  {
    match Lookup(db, id)
    case None => None
    case Some(g) =>
      match Lookup(g, ds)
      case None => None
      case Some(m) => Some(Clean(m))
  }

  /** For every listed event, in order, its cleaned array `ds` or nothing. */
  function Holdings(db: Database, ids: seq<string>, ds: string): (h: seq<Named<Option<Matrix<real>>>>)
    ensures |h| == |ids|
    ensures forall n {:trigger h[n]} :: 0 <= n < |ids| ==> h[n] == Named(ids[n], Holding(db, ids[n], ds))
  {
    if |ids| == 0 then []
    else
      assert forall n :: 1 <= n < |ids| ==> ids[1..][n - 1] == ids[n];
      [Named(ids[0], Holding(db, ids[0], ds))] + Holdings(db, ids[1..], ds)
  }

  /** `data_list`: the cleaned arrays `ds` of the listed events that hold it, in list order. */
  function Gathered(db: Database, ids: seq<string>, ds: string): seq<Named<Matrix<real>>> {
    Present(Holdings(db, ids, ds))
  }

  /** Every gathered array is the cleaned array of a listed event that holds the dataset. */
  lemma GatheredOrigin(db: Database, ids: seq<string>, ds: string, k: nat) returns (n: nat)
    requires k < |Gathered(db, ids, ds)|
    ensures n < |ids| && ids[n] == Gathered(db, ids, ds)[k].name
    ensures Holding(db, ids[n], ds) == Some(Gathered(db, ids, ds)[k].value)
  {
    n := PresentOrigin(Holdings(db, ids, ds), k);
  }

  /** Every listed event that holds the dataset contributes its cleaned array. */
  lemma GatheredIndex(db: Database, ids: seq<string>, ds: string, n: nat) returns (k: nat)
    requires n < |ids| && Holding(db, ids[n], ds).Some?
    ensures k < |Gathered(db, ids, ds)|
    ensures Gathered(db, ids, ds)[k] == Named(ids[n], Holding(db, ids[n], ds).value)
  {
    k := PresentIndex(Holdings(db, ids, ds), n);
  }

  /** Nothing is gathered exactly when no listed event holds the dataset. */
  lemma NothingGathered(db: Database, ids: seq<string>, ds: string)
    ensures |Gathered(db, ids, ds)| == 0 <==> forall n :: 0 <= n < |ids| ==> Holding(db, ids[n], ds).None?
  {
    var h := Holdings(db, ids, ds);
    NothingPresent(h);
    assert forall n :: 0 <= n < |ids| ==> h[n].value == Holding(db, ids[n], ds);
  }

  /** Gathering is local: gathering over two lists of events concatenates what each gathers. */
  lemma {:induction false} GatheredAppend(db: Database, a: seq<string>, b: seq<string>, ds: string)
    ensures Gathered(db, a + b, ds) == Gathered(db, a, ds) + Gathered(db, b, ds)
  {
    HoldingsAppend(db, a, b, ds);
    PresentAppend(Holdings(db, a, ds), Holdings(db, b, ds));
  }

  lemma {:induction false} HoldingsAppend(db: Database, a: seq<string>, b: seq<string>, ds: string)
    ensures Holdings(db, a + b, ds) == Holdings(db, a, ds) + Holdings(db, b, ds)
  {
    if |a| == 0 {
      assert a + b == b;
    } else {
      assert (a + b)[0] == a[0] && (a + b)[1..] == a[1..] + b;
      HoldingsAppend(db, a[1..], b, ds);
    }
  }

  // ---------------------------------------------------------------------------
  // The dataset names of a class

  /** The dataset names of one event, or none when the event is not in the file. */
  function NamesOf(db: Database, id: string): set<string> {
    match Lookup(db, id)
    case None => {}
    case Some(g) => Names(g)
  }

  /** `dataset_names`: every dataset name of every listed event that is in the file. */
  function Union(db: Database, ids: seq<string>): set<string> {
    if |ids| == 0 then {} else NamesOf(db, ids[0]) + Union(db, ids[1..])
  }

  /** A name is in the union exactly when some listed event holds a dataset of that name. */
  lemma {:induction false} UnionMeaning(db: Database, ids: seq<string>, ds: string)
    ensures ds in Union(db, ids) <==> exists n :: 0 <= n < |ids| && Holding(db, ids[n], ds).Some?
  {
    if |ids| > 0 {
      UnionMeaning(db, ids[1..], ds);
      if ds in Union(db, ids[1..]) {
        var n :| 0 <= n < |ids[1..]| && Holding(db, ids[1..][n], ds).Some?;
        assert ids[1..][n] == ids[n + 1];
      }
      if exists n :: 0 <= n < |ids| && Holding(db, ids[n], ds).Some? {
        var n :| 0 <= n < |ids| && Holding(db, ids[n], ds).Some?;
        if n > 0 {
          assert ids[1..][n - 1] == ids[n];
        }
      }
    }
  }

  /** A name is in the union exactly when something is gathered for it. */
  lemma UnionIsGathered(db: Database, ids: seq<string>, ds: string)
    ensures ds in Union(db, ids) <==> |Gathered(db, ids, ds)| > 0
  {
    UnionMeaning(db, ids, ds);
    NothingGathered(db, ids, ds);
  }

  // ---------------------------------------------------------------------------
  // Elementwise means

  /** Every gathered array has h rows and w columns. */
  predicate AllShaped(gs: seq<Named<Matrix<real>>>, h: nat, w: nat) {
    forall k :: 0 <= k < |gs| ==> |gs[k].value.rows| == h && gs[k].value.width == w
  }

  /** Element (i, j) of every gathered array, in order. */
  function Entries(gs: seq<Named<Matrix<real>>>, h: nat, w: nat, i: nat, j: nat): (e: seq<real>)
    requires AllShaped(gs, h, w) && i < h && j < w
    ensures |e| == |gs|
    ensures forall k :: 0 <= k < |gs| ==> e[k] == gs[k].value.rows[i][j]
  {
    if |gs| == 0 then [] else [gs[0].value.rows[i][j]] + Entries(gs[1..], h, w, i, j)
  }

  /** `np.mean(np.stack(data_list), axis=0)` for arrays of one shape (h, w). */
  function MeanMatrix(gs: seq<Named<Matrix<real>>>, h: nat, w: nat): (m: Matrix<real>)
    requires |gs| >= 1 && AllShaped(gs, h, w)
    ensures |m.rows| == h && m.width == w
  {
    Grid(w, seq(h, i requires 0 <= i < h =>
                  seq(w, j requires 0 <= j < w => Sum(Entries(gs, h, w, i, j)) / (|gs| as real))))
  }

  /** What the script stores for one dataset name. */
  datatype Averaged =
    | Mean(m: Matrix<real>)
      /** Arrays of different shapes: the script falls back to `np.mean` of the ragged list (left uninterpreted). */
    | ShapeMismatch

  /** The average of the gathered arrays: elementwise when they all have the first one's shape. */
  function AverageOf(gs: seq<Named<Matrix<real>>>): (r: Averaged)
    requires |gs| >= 1
    ensures r.Mean? <==> AllShaped(gs, |gs[0].value.rows|, gs[0].value.width)
    ensures r.Mean? ==> |r.m.rows| == |gs[0].value.rows| && r.m.width == gs[0].value.width
  {
    var h, w := |gs[0].value.rows|, gs[0].value.width;
    if AllShaped(gs, h, w) then Mean(MeanMatrix(gs, h, w)) else ShapeMismatch
  }

  /** `average_datasets`: every dataset name of the class's events, with its average over the events holding it. */
  function AverageDatasets(ids: seq<string>, db: Database): (r: map<string, Averaged>)
    ensures r.Keys == Union(db, ids)
  {
    UnionGathersSomething(db, ids);
    map ds | ds in Union(db, ids) && |Gathered(db, ids, ds)| > 0 :: AverageOf(Gathered(db, ids, ds))
  }

  lemma UnionGathersSomething(db: Database, ids: seq<string>)
    ensures forall ds :: ds in Union(db, ids) ==> |Gathered(db, ids, ds)| > 0
  {
    forall ds | ds in Union(db, ids) ensures |Gathered(db, ids, ds)| > 0 {
      UnionIsGathered(db, ids, ds);
    }
  }

  // ---------------------------------------------------------------------------
  // Properties of the averages

  /** A class's output names: exactly the names of datasets some listed event in the file holds. */
  lemma AverageKeys(ids: seq<string>, db: Database, ds: string)
    ensures ds in AverageDatasets(ids, db) <==> exists n :: 0 <= n < |ids| && Holding(db, ids[n], ds).Some?
  {
    UnionMeaning(db, ids, ds);
  }

  /** A mean of n values that all lie in [lo, hi] lies in [lo, hi]. */
  lemma MeanBounds(s: seq<real>, lo: real, hi: real)
    requires |s| >= 1 && forall k :: 0 <= k < |s| ==> lo <= s[k] <= hi
    ensures lo <= Sum(s) / (|s| as real) <= hi
  {
    SumBounds(s, lo, hi);
    DivBounds(Sum(s), |s| as real, lo, hi);
  }

  /** Each element of an elementwise mean lies between the smallest and largest of the averaged elements. */
  lemma MeanMatrixBounds(gs: seq<Named<Matrix<real>>>, h: nat, w: nat, i: nat, j: nat, lo: real, hi: real)
    requires |gs| >= 1 && AllShaped(gs, h, w) && i < h && j < w
    requires forall k :: 0 <= k < |gs| ==> lo <= gs[k].value.rows[i][j] <= hi
    ensures lo <= MeanMatrix(gs, h, w).rows[i][j] <= hi
  {
    MeanBounds(Entries(gs, h, w, i, j), lo, hi);
  }

  /** Averaging copies of one array gives that array back. */
  lemma MeanMatrixOfIdentical(gs: seq<Named<Matrix<real>>>, a: Matrix<real>)
    requires |gs| >= 1 && forall k :: 0 <= k < |gs| ==> gs[k].value == a
    ensures AllShaped(gs, |a.rows|, a.width)
    ensures MeanMatrix(gs, |a.rows|, a.width) == a
  {
    var h, w := |a.rows|, a.width;
    var m := MeanMatrix(gs, h, w);
    forall i | 0 <= i < h ensures m.rows[i] == a.rows[i] {
      forall j | 0 <= j < w ensures m.rows[i][j] == a.rows[i][j] {
        MeanMatrixBounds(gs, h, w, i, j, a.rows[i][j], a.rows[i][j]);
      }
    }
  }

  /**
    Every element of a dataset's average lies between the smallest and the
    largest value that element takes in the (cleaned) arrays of the events holding it.
   */
  lemma AverageWithinBounds(ids: seq<string>, db: Database, ds: string, i: nat, j: nat, lo: real, hi: real)
    requires ds in AverageDatasets(ids, db) && AverageDatasets(ids, db)[ds].Mean?
    requires i < |AverageDatasets(ids, db)[ds].m.rows| && j < AverageDatasets(ids, db)[ds].m.width
    requires forall n ::
               (0 <= n < |ids| && Holding(db, ids[n], ds).Some? &&
                i < |Holding(db, ids[n], ds).value.rows| && j < Holding(db, ids[n], ds).value.width) ==>
               lo <= Holding(db, ids[n], ds).value.rows[i][j] <= hi
    ensures lo <= AverageDatasets(ids, db)[ds].m.rows[i][j] <= hi
  {
    var gs := Gathered(db, ids, ds);
    var h, w := |gs[0].value.rows|, gs[0].value.width;
    forall k | 0 <= k < |gs| ensures lo <= gs[k].value.rows[i][j] <= hi {
      var n := GatheredOrigin(db, ids, ds, k);
    }
    MeanMatrixBounds(gs, h, w, i, j, lo, hi);
  }

  /** When every event holding a dataset holds the same array, that array is the average. */
  lemma AverageOfIdentical(ids: seq<string>, db: Database, ds: string, a: Matrix<real>)
    requires ds in AverageDatasets(ids, db)
    requires forall n :: 0 <= n < |ids| && Holding(db, ids[n], ds).Some? ==> Holding(db, ids[n], ds).value == a
    ensures AverageDatasets(ids, db)[ds] == Mean(a)
  {
    var gs := Gathered(db, ids, ds);
    forall k | 0 <= k < |gs| ensures gs[k].value == a {
      var n := GatheredOrigin(db, ids, ds, k);
    }
    MeanMatrixOfIdentical(gs, a);
  }

  /**
    Only holders count: listing one more event that does not hold `ds` (or is
    not in the file at all) leaves whether `ds` is output, and its average, unchanged.
   */
  lemma NonHolderIgnored(ids: seq<string>, db: Database, x: string, ds: string)
    requires Holding(db, x, ds).None?
    ensures ds in AverageDatasets(ids + [x], db) <==> ds in AverageDatasets(ids, db)
    ensures ds in AverageDatasets(ids, db) ==> AverageDatasets(ids + [x], db)[ds] == AverageDatasets(ids, db)[ds]
  {
    GatheredAppend(db, ids, [x], ds);
    NothingGathered(db, [x], ds);
    assert Gathered(db, ids + [x], ds) == Gathered(db, ids, ds);
    UnionIsGathered(db, ids, ds);
    UnionIsGathered(db, ids + [x], ds);
  }

  /** Event ids missing from the file are skipped: listing one changes nothing. */
  lemma MissingEventIgnored(ids: seq<string>, db: Database, x: string)
    requires x !in Names(db)
    ensures AverageDatasets(ids + [x], db) == AverageDatasets(ids, db)
  {
    forall ds ensures Holding(db, x, ds).None? {
    }
    forall ds | ds in AverageDatasets(ids, db) || ds in AverageDatasets(ids + [x], db)
      ensures ds in AverageDatasets(ids + [x], db) && ds in AverageDatasets(ids, db) &&
              AverageDatasets(ids + [x], db)[ds] == AverageDatasets(ids, db)[ds]
    {
      NonHolderIgnored(ids, db, x, ds);
    }
  }

  // ---------------------------------------------------------------------------
  // A worked class

  /** A 1 x 1 array. */
  function OneByOne<T>(x: T): Matrix<T> {
    Grid(1, [[x]])
  }

  /** Event e1 holds A = a and B = b, event e2 holds only B = c. */
  function SmallDb(a: Cell, b: Cell, c: Cell): Database {
    [Named("e1", [Named("A", OneByOne(a)), Named("B", OneByOne(b))]),
     Named("e2", [Named("B", OneByOne(c))])]
  }

  /** The class lists e1, e2 and e3, which is not in the file. */
  const SmallIds: seq<string> := ["e1", "e2", "e3"]

  /** Cleaning a 1 x 1 array cleans its one cell. */
  lemma CleanSingle(c: Cell)
    ensures Clean(OneByOne(c)) == OneByOne(Sanitize(c))
  {
    var r := Clean(OneByOne(c));
    assert r.rows[0] == [Sanitize(c)];
    assert r.rows == [[Sanitize(c)]];
  }

  /** Which event holds which array. */
  lemma SmallHoldings(a: Cell, b: Cell, c: Cell, ds: string)
    ensures Holding(SmallDb(a, b, c), "e1", ds) ==
              if ds == "A" then Some(OneByOne(Sanitize(a))) else if ds == "B" then Some(OneByOne(Sanitize(b))) else None
    ensures Holding(SmallDb(a, b, c), "e2", ds) == if ds == "B" then Some(OneByOne(Sanitize(c))) else None
    ensures Holding(SmallDb(a, b, c), "e3", ds) == None
  {
    var db := SmallDb(a, b, c);
    var g1, g2 := db[0].value, db[1].value;
    LookupCons(db[0], db[1..], "e1");
    LookupCons(db[0], db[1..], "e2");
    LookupCons(db[0], db[1..], "e3");
    LookupCons(db[1], [], "e2");
    LookupCons(db[1], [], "e3");
    assert db == [db[0]] + db[1..] && db[1..] == [db[1]] + [];
    assert Lookup(db, "e1") == Some(g1) && Lookup(db, "e2") == Some(g2) && Lookup(db, "e3") == None;
    LookupCons(g1[0], g1[1..], ds);
    LookupCons(g1[1], [], ds);
    LookupCons(g2[0], [], ds);
    assert g1 == [g1[0]] + g1[1..] && g1[1..] == [g1[1]] + [] && g2 == [g2[0]] + [];
    CleanSingle(a);
    CleanSingle(b);
    CleanSingle(c);
  }

  /** The class's gathered arrays: A only from e1, B from e1 and e2, both cleaned. */
  lemma SmallClassGathered(a: Cell, b: Cell, c: Cell, ds: string)
    ensures Gathered(SmallDb(a, b, c), SmallIds, ds) ==
              if ds == "A" then [Named("e1", OneByOne(Sanitize(a)))]
              else if ds == "B" then [Named("e1", OneByOne(Sanitize(b))), Named("e2", OneByOne(Sanitize(c)))]
              else []
  {
    var db := SmallDb(a, b, c);
    SmallHoldings(a, b, c, ds);
    var h := Holdings(db, SmallIds, ds);
    assert h == [h[0]] + ([h[1]] + ([h[2]] + []));
    assert h[0] == Named("e1", Holding(db, "e1", ds));
    assert h[1] == Named("e2", Holding(db, "e2", ds));
    assert h[2] == Named("e3", Holding(db, "e3", ds));
    PresentCons(h[2], []);
    PresentCons(h[1], [h[2]] + []);
    PresentCons(h[0], [h[1]] + ([h[2]] + []));
  }

  /** The mean of two 1 x 1 arrays. */
  lemma MeanOfTwoSingles(p: string, q: string, x: real, y: real)
    ensures MeanMatrix([Named(p, OneByOne(x)), Named(q, OneByOne(y))], 1, 1) == OneByOne((x + y) / 2.0)
  {
    var gs := [Named(p, OneByOne(x)), Named(q, OneByOne(y))];
    var e := Entries(gs, 1, 1, 0, 0);
    assert |gs| as real == 2.0;
    assert e == [x, y];
    assert e[1..] == [y] && e[1..][1..] == [];
    assert Sum(e[1..][1..]) == 0.0;
    assert Sum(e[1..]) == y;
    assert Sum(e) == x + y;
    var m := MeanMatrix(gs, 1, 1);
    assert m.rows[0][0] == (x + y) / 2.0;
    assert m.rows[0] == [(x + y) / 2.0];
    assert m.rows == [[(x + y) / 2.0]];
  }

  lemma AverageOfTwoSingles(p: string, q: string, x: real, y: real)
    ensures AverageOf([Named(p, OneByOne(x)), Named(q, OneByOne(y))]) == Mean(OneByOne((x + y) / 2.0))
  {
    var gs := [Named(p, OneByOne(x)), Named(q, OneByOne(y))];
    assert AllShaped(gs, 1, 1);
    MeanOfTwoSingles(p, q, x, y);
  }

  /** The stored average of a name in the union. */
  lemma AverageAt(ids: seq<string>, db: Database, ds: string)
    requires ds in Union(db, ids)
    ensures |Gathered(db, ids, ds)| > 0
    ensures AverageDatasets(ids, db)[ds] == AverageOf(Gathered(db, ids, ds))
  {
    UnionIsGathered(db, ids, ds);
  }

  /** The class's dataset names. */
  lemma SmallUnion(a: Cell, b: Cell, c: Cell)
    ensures Union(SmallDb(a, b, c), SmallIds) == {"A", "B"}
  {
    forall ds ensures ds in Union(SmallDb(a, b, c), SmallIds) <==> ds == "A" || ds == "B" {
      UnionIsGathered(SmallDb(a, b, c), SmallIds, ds);
      SmallClassGathered(a, b, c, ds);
    }
  }

  /** e1 alone holds A, so A's average is e1's cleaned array. */
  lemma SmallAverageA(a: Cell, b: Cell, c: Cell)
    ensures |Gathered(SmallDb(a, b, c), SmallIds, "A")| == 1
    ensures AverageOf(Gathered(SmallDb(a, b, c), SmallIds, "A")) == Mean(OneByOne(Sanitize(a)))
  {
    SmallClassGathered(a, b, c, "A");
    MeanMatrixOfIdentical(Gathered(SmallDb(a, b, c), SmallIds, "A"), OneByOne(Sanitize(a)));
  }

  /** B is held by e1 and e2: its average is the mean of their cleaned values. */
  lemma SmallAverageB(a: Cell, b: Cell, c: Cell)
    ensures |Gathered(SmallDb(a, b, c), SmallIds, "B")| == 2
    ensures AverageOf(Gathered(SmallDb(a, b, c), SmallIds, "B")) == Mean(OneByOne((Sanitize(b) + Sanitize(c)) / 2.0))
  {
    SmallClassGathered(a, b, c, "B");
    AverageOfTwoSingles("e1", "e2", Sanitize(b), Sanitize(c));
  }

  /**
    Datasets average over different events: A is e1's value alone, B the mean
    of e1's and e2's values with NaN read as 0, and e3, missing from the file,
    plays no part. With a = 2, b = 4 and c = NaN both averages are 2.
   */
  lemma SmallClassAverages(a: Cell, b: Cell, c: Cell)
    ensures AverageDatasets(SmallIds, SmallDb(a, b, c)).Keys == {"A", "B"}
    ensures AverageDatasets(SmallIds, SmallDb(a, b, c))["A"] == Mean(OneByOne(Sanitize(a)))
    ensures AverageDatasets(SmallIds, SmallDb(a, b, c))["B"] == Mean(OneByOne((Sanitize(b) + Sanitize(c)) / 2.0))
  {
    SmallUnion(a, b, c);
    AverageAt(SmallIds, SmallDb(a, b, c), "A");
    AverageAt(SmallIds, SmallDb(a, b, c), "B");
    SmallAverageA(a, b, c);
    SmallAverageB(a, b, c);
  }
}
