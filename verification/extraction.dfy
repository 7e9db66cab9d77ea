/**
  The observable extractor of `utilities/split_into_centralities_flexible.py`:
  one centrality configuration names the dataset(s) to read from an event group
  and the reduction that turns them into one number. The per-configuration
  lambdas of the script are the five reductions of `Reduction`.
 */
module Extraction {
  import opened Wrappers
  import opened Datasets
  import Glob

  /** The reductions the configurations use, as data instead of code. */
  datatype Reduction =
    | FirstRowValue                  // data[0, 1]
    | WindowSum(lo: real, hi: real)  // sum of column -2 over rows with lo <= column 0 <= hi
    | RowCount                       // data.shape[0]
    | ColumnSum(col: nat)            // sum of one column
    | FirstRowValueSum               // sum of d[0, 1] over a list of arrays

  /** What the configuration's `"file"` entry holds: a name or pattern, a list of names, or anything else. */
  datatype DatasetSpec = Single(pattern: string) | Several(names: seq<string>) | Unsupported

  datatype Config = Config(key: string, spec: DatasetSpec, reduction: Reduction)

  /** Sum of `vals[i]` over the rows whose key lies in the closed window [lo, hi]. */
  function WindowedSum(keys: seq<real>, vals: seq<real>, lo: real, hi: real): (r: real)
    requires |keys| == |vals|
    ensures (forall i :: 0 <= i < |keys| ==> lo <= keys[i] <= hi) ==> r == Sum(vals)
    ensures (forall i :: 0 <= i < |keys| ==> !(lo <= keys[i] <= hi)) ==> r == 0.0
  {
    if |keys| == 0 then 0.0
    else (if lo <= keys[0] <= hi then vals[0] else 0.0) + WindowedSum(keys[1..], vals[1..], lo, hi)
  }

  /** A single row contributes its value exactly when its key lies in the window. */
  lemma WindowedSumOne(key: real, val: real, lo: real, hi: real)
    ensures WindowedSum([key], [val], lo, hi) == if lo <= key <= hi then val else 0.0
  {
  }

  /** The windowed sum of stacked rows is the sum of the two parts' windowed sums. */
  lemma {:induction false} WindowedSumAppend(k1: seq<real>, v1: seq<real>, k2: seq<real>, v2: seq<real>, lo: real, hi: real)
    requires |k1| == |v1| && |k2| == |v2|
    ensures WindowedSum(k1 + k2, v1 + v2, lo, hi) == WindowedSum(k1, v1, lo, hi) + WindowedSum(k2, v2, lo, hi)
  {
    if |k1| == 0 {
      assert k1 + k2 == k2;
      assert v1 + v2 == v2;
    } else {
      assert (k1 + k2)[1..] == k1[1..] + k2;
      assert (v1 + v2)[1..] == v1[1..] + v2;
      WindowedSumAppend(k1[1..], v1[1..], k2, v2, lo, hi);
    }
  }

  /**
    A reduction applied to one sanitized array; `None` when the lambda would raise
    (an index out of range, or a list-only reduction given a non-empty array).
   */
  function ReduceOne(red: Reduction, m: Matrix<real>): (r: Option<real>)
    ensures red.FirstRowValue? ==> (r.Some? <==> |m.rows| >= 1 && m.width >= 2)
    ensures red.FirstRowValue? && r.Some? ==> r.value == m.rows[0][1]
    ensures red.WindowSum? ==> (r.Some? <==> m.width >= 2)
    ensures red.RowCount? ==> r == Some(|m.rows| as real)
    ensures red.ColumnSum? ==> (r.Some? <==> red.col < m.width)
    ensures red.FirstRowValueSum? ==> (r.Some? <==> |m.rows| == 0)
    ensures red.FirstRowValueSum? && r.Some? ==> r.value == 0.0
  {
    match red
    case FirstRowValue =>
      if |m.rows| >= 1 && m.width >= 2 then Some(m.rows[0][1]) else None
    case WindowSum(lo, hi) =>
      if m.width >= 2 then Some(WindowedSum(Column(m, 0), Column(m, m.width - 2), lo, hi)) else None
    case RowCount =>
      Some(|m.rows| as real)
    case ColumnSum(c) =>
      if c < m.width then Some(Sum(Column(m, c))) else None
    case FirstRowValueSum =>
      // iterating a 2-D array yields its rows; `d[0, 1]` on a row raises, and an empty sum is 0
      if |m.rows| == 0 then Some(0.0) else None
  }

  /** `d[0, 1]` of every array in a list, in list order. */
  function FirstRowValues(ms: seq<Matrix<real>>): (vs: seq<real>)
    requires forall k :: 0 <= k < |ms| ==> |ms[k].rows| >= 1 && ms[k].width >= 2
    ensures |vs| == |ms|
    ensures forall k :: 0 <= k < |ms| ==> vs[k] == ms[k].rows[0][1]
  {
    seq(|ms|, k requires 0 <= k < |ms| => ms[k].rows[0][1])
  }

  /**
    A reduction applied to a list of sanitized arrays. Only the list reduction
    accepts a list; the others index or ask the shape of a Python list, which raises.
   */
  function ReduceMany(red: Reduction, ms: seq<Matrix<real>>): (r: Option<real>)
    ensures !red.FirstRowValueSum? ==> r.None?
    ensures red.FirstRowValueSum? ==>
              (r.Some? <==> forall k :: 0 <= k < |ms| ==> |ms[k].rows| >= 1 && ms[k].width >= 2)
  {
    if red.FirstRowValueSum? && forall k :: 0 <= k < |ms| ==> |ms[k].rows| >= 1 && ms[k].width >= 2 then
      Some(Sum(FirstRowValues(ms)))
    else
      None
  }

  /** In a group, the first entry matching a pattern is also the first entry with its own name. */
  lemma FirstMatchIsFirstOfItsName(group: Group, p: string)
    requires FirstMatching(group, p).Some?
    ensures Lookup(group, FirstMatching(group, p).value.name) == Some(FirstMatching(group, p).value.value)
  {
    var k := FirstMatchingIndex(group, p).value;
    assert group[k].name in Names(group);
    var k' := FirstNamed(group, group[k].name).value;
    assert k' <= k;
  }

  /**
    The array one `"file"` string selects: the first key matching it when it
    holds `*` or `?`, otherwise the key equal to it.
   */
  function Resolve(group: Group, spec: string): (r: Option<Matrix<Cell>>)
    ensures !Glob.HasWildcard(spec) ==> r == Lookup(group, spec)
    ensures Glob.HasWildcard(spec) ==>
              (r.None? <==> forall j :: 0 <= j < |group| ==> !Glob.Match(spec, group[j].name))
    ensures Glob.HasWildcard(spec) && r.Some? ==>
              exists k :: 0 <= k < |group| && group[k].value == r.value && Glob.Match(spec, group[k].name) &&
                forall j :: 0 <= j < k ==> !Glob.Match(spec, group[j].name)
  {
    if Glob.HasWildcard(spec) then
      match FirstMatching(group, spec)
      case None => None
      case Some(e) =>
        FirstMatchIsFirstOfItsName(group, spec);
        Lookup(group, e.name)
    else
      Lookup(group, spec)
  }

  /** The arrays a list of names selects, in list order; absent as soon as one name is missing. */
  function ResolveAll(group: Group, names: seq<string>): (r: Option<seq<Matrix<Cell>>>)
    ensures r.None? <==> exists i :: 0 <= i < |names| && names[i] !in Names(group)
    ensures r.Some? ==> |r.value| == |names|
    ensures r.Some? ==> forall i :: 0 <= i < |names| ==> Lookup(group, names[i]) == Some(r.value[i])
  {
    if |names| == 0 then Some([])
    else
      match Lookup(group, names[0])
      case None => None
      case Some(m) =>
        match ResolveAll(group, names[1..])
        case None =>
          assert forall i :: 1 <= i < |names| ==> names[i] == names[1..][i - 1];
          None
        case Some(ms) =>
          assert forall i :: 1 <= i < |names| ==> names[i] == names[1..][i - 1];
          Some([m] + ms)
  }

  /** `nan_to_num` on every array of a list. */
  function CleanAll(ms: seq<Matrix<Cell>>): (cs: seq<Matrix<real>>)
    ensures |cs| == |ms|
    ensures forall k :: 0 <= k < |ms| ==> cs[k] == Clean(ms[k])
  {
    seq(|ms|, k requires 0 <= k < |ms| => Clean(ms[k]))
  }

  /**
    `extract_centrality_variable`: the configuration's observable for one event,
    or `None`. A missing dataset, a failing reduction and an unsupported spec all
    give `None`; nothing here aborts.
   */
  function Extract(group: Group, config: Config): (r: Option<real>)
    ensures config.spec.Unsupported? ==> r.None?
    ensures (config.spec.Single? && !Glob.HasWildcard(config.spec.pattern) &&
             config.spec.pattern !in Names(group)) ==> r.None?
    ensures (config.spec.Single? && Glob.HasWildcard(config.spec.pattern) &&
             forall j :: 0 <= j < |group| ==> !Glob.Match(config.spec.pattern, group[j].name)) ==> r.None?
    ensures (config.spec.Several? &&
             exists i :: 0 <= i < |config.spec.names| && config.spec.names[i] !in Names(group)) ==> r.None?
  {
    match config.spec
    case Single(p) =>
      (match Resolve(group, p)
       case None => None
       case Some(m) => ReduceOne(config.reduction, Clean(m)))
    case Several(ns) =>
      (match ResolveAll(group, ns)
       case None => None
       case Some(ms) => ReduceMany(config.reduction, CleanAll(ms)))
    case Unsupported => None
  }

  // ---------------------------------------------------------------------------
  // Properties of extraction

  /**
    A wildcard spec behaves as the exact name of the first key, in key order,
    that matches it (when that key is itself free of wildcard characters).
   */
  lemma WildcardResolvesToFirstMatch(group: Group, key: string, p: string, red: Reduction, k: nat)
    requires Glob.HasWildcard(p)
    requires k < |group| && Glob.Match(p, group[k].name) && !Glob.HasWildcard(group[k].name)
    requires forall j :: 0 <= j < k ==> !Glob.Match(p, group[j].name)
    ensures Extract(group, Config(key, Single(p), red)) == Extract(group, Config(key, Single(group[k].name), red))
  {
    var k' := FirstMatchingIndex(group, p);
    assert k'.Some? && k'.value == k;
    FirstMatchIsFirstOfItsName(group, p);
  }

  /** Two groups whose arrays agree after `nan_to_num`. */
  predicate SameAfterSanitizing(g1: Group, g2: Group) {
    |g1| == |g2| &&
    forall j :: 0 <= j < |g1| ==> g1[j].name == g2[j].name && Clean(g1[j].value) == Clean(g2[j].value)
  }

  lemma {:induction false} LookupSanitized(g1: Group, g2: Group, name: string)
    requires SameAfterSanitizing(g1, g2)
    ensures Lookup(g1, name).Some? <==> Lookup(g2, name).Some?
    ensures Lookup(g1, name).Some? ==> Clean(Lookup(g1, name).value) == Clean(Lookup(g2, name).value)
  {
    assert Names(g1) == Names(g2) by {
      forall n | n in Names(g1) ensures n in Names(g2) {
        var i :| 0 <= i < |g1| && g1[i].name == n;
        assert g2[i].name == n;
      }
      forall n | n in Names(g2) ensures n in Names(g1) {
        var i :| 0 <= i < |g2| && g2[i].name == n;
        assert g1[i].name == n;
      }
    }
    if Lookup(g1, name).Some? {
      var a, b := FirstNamed(g1, name).value, FirstNamed(g2, name).value;
      assert a == b;
    }
  }

  lemma ResolveSanitized(g1: Group, g2: Group, p: string)
    requires SameAfterSanitizing(g1, g2)
    ensures Resolve(g1, p).Some? <==> Resolve(g2, p).Some?
    ensures Resolve(g1, p).Some? ==> Clean(Resolve(g1, p).value) == Clean(Resolve(g2, p).value)
  {
    if Glob.HasWildcard(p) {
      var e1 := FirstMatchingIndex(g1, p);
      var e2 := FirstMatchingIndex(g2, p);
      assert e1.None? <==> e2.None?;
      if e1.Some? {
        assert e1.value == e2.value;
        FirstMatchIsFirstOfItsName(g1, p);
        FirstMatchIsFirstOfItsName(g2, p);
      }
    } else {
      LookupSanitized(g1, g2, p);
    }
  }

  lemma ResolveAllSanitized(g1: Group, g2: Group, ns: seq<string>)
    requires SameAfterSanitizing(g1, g2)
    ensures ResolveAll(g1, ns).Some? <==> ResolveAll(g2, ns).Some?
    ensures ResolveAll(g1, ns).Some? ==> CleanAll(ResolveAll(g1, ns).value) == CleanAll(ResolveAll(g2, ns).value)
  {
    forall i | 0 <= i < |ns| ensures Lookup(g1, ns[i]).Some? <==> Lookup(g2, ns[i]).Some? {
      LookupSanitized(g1, g2, ns[i]);
    }
    var r1 := ResolveAll(g1, ns);
    var r2 := ResolveAll(g2, ns);
    if r1.Some? {
      assert CleanAll(r1.value) == CleanAll(r2.value) by {
        forall i | 0 <= i < |ns| ensures Clean(r1.value[i]) == Clean(r2.value[i]) {
          LookupSanitized(g1, g2, ns[i]);
        }
      }
    }
  }

  /**
    Every array is sanitized before its reduction: an event whose arrays differ
    only where NaN stands against 0 yields the same observable.
   */
  lemma ExtractSeesOnlySanitizedData(g1: Group, g2: Group, config: Config)
    requires SameAfterSanitizing(g1, g2)
    ensures Extract(g1, config) == Extract(g2, config)
  {
    match config.spec
    case Single(p) =>
      ResolveSanitized(g1, g2, p);
    case Several(ns) =>
      ResolveAllSanitized(g1, g2, ns);
    case Unsupported =>
  }

  /**
    A list spec hands the arrays to the reduction in the configured order: with
    the list reduction the observable is the sum of each array's `[0, 1]`
    entry after `nan_to_num`.
   */
  lemma ListSpecSumsInOrder(group: Group, key: string, ns: seq<string>)
    requires forall i :: 0 <= i < |ns| ==> Lookup(group, ns[i]).Some?
    requires forall i :: 0 <= i < |ns| ==>
               |Lookup(group, ns[i]).value.rows| >= 1 && Lookup(group, ns[i]).value.width >= 2
    ensures Extract(group, Config(key, Several(ns), FirstRowValueSum)) ==
              Some(Sum(seq(|ns|, i requires 0 <= i < |ns| => Sanitize(Lookup(group, ns[i]).value.rows[0][1]))))
  {
    var ms := ResolveAll(group, ns);
    assert ms.Some?;
    var cs := CleanAll(ms.value);
    assert FirstRowValues(cs) ==
           seq(|ns|, i requires 0 <= i < |ns| => Sanitize(Lookup(group, ns[i]).value.rows[0][1]));
  }

  /** A spec without wildcards reads the array stored under exactly that name. */
  lemma ExtractLiteral(group: Group, key: string, p: string, red: Reduction)
    requires !Glob.HasWildcard(p)
    ensures Extract(group, Config(key, Single(p), red)) ==
              if Lookup(group, p).Some? then ReduceOne(red, Clean(Lookup(group, p).value)) else None
  {
  }

  /** A list spec reads every listed array, or gives nothing. */
  lemma ExtractList(group: Group, key: string, ns: seq<string>, red: Reduction)
    ensures Extract(group, Config(key, Several(ns), red)) ==
              if ResolveAll(group, ns).Some? then ReduceMany(red, CleanAll(ResolveAll(group, ns).value)) else None
  {
  }

  /**
    The list reduction over two names is the sum of the first-row reductions of
    each name, and is absent exactly when either of them is.
   */
  lemma PairSumIsSumOfParts(group: Group, key: string, keyA: string, keyC: string, a: string, c: string)
    requires !Glob.HasWildcard(a) && !Glob.HasWildcard(c)
    ensures Extract(group, Config(key, Several([a, c]), FirstRowValueSum)).Some? <==>
              Extract(group, Config(keyA, Single(a), FirstRowValue)).Some? &&
              Extract(group, Config(keyC, Single(c), FirstRowValue)).Some?
    ensures Extract(group, Config(key, Several([a, c]), FirstRowValueSum)).Some? ==>
              Extract(group, Config(key, Several([a, c]), FirstRowValueSum)).value ==
                Extract(group, Config(keyA, Single(a), FirstRowValue)).value +
                Extract(group, Config(keyC, Single(c), FirstRowValue)).value
  {
    var ns := [a, c];
    var r := ResolveAll(group, ns);
    ExtractLiteral(group, keyA, a, FirstRowValue);
    ExtractLiteral(group, keyC, c, FirstRowValue);
    ExtractList(group, key, ns, FirstRowValueSum);
    if r.Some? {
      assert Lookup(group, ns[0]) == Some(r.value[0]) && Lookup(group, ns[1]) == Some(r.value[1]);
      var ma, mc := Clean(r.value[0]), Clean(r.value[1]);
      var cs := CleanAll(r.value);
      assert cs == [ma, mc];
      if |ma.rows| >= 1 && ma.width >= 2 && |mc.rows| >= 1 && mc.width >= 2 {
        var vs := FirstRowValues(cs);
        assert Sum(vs) == vs[0] + (vs[1] + Sum(vs[2..]));
      }
    } else {
      var i :| 0 <= i < |ns| && ns[i] !in Names(group);
      assert Lookup(group, ns[i]).None?;
    }
  }

  // ---------------------------------------------------------------------------
  // The registered configurations, in the script's order

  const V0AFile: string := "particle_9999_vndata_eta_2.8_5.1.dat"
  const V0CFile: string := "particle_9999_vndata_eta_-3.7_-1.7.dat"

  const CentralDNdy := Config("central_dNdy", Single("particle_9999_vndata_eta_-0.5_0.5.dat"), FirstRowValue)
  const CentralET := Config("central_ET", Single("particle_9999_dNdeta_pT_0.2_3.dat"), WindowSum(-0.5, 0.5))
  const AtlasFCal := Config("ATLAS_FCal", Single("particle_9999_dNdeta_pT_0.3_3.dat"), WindowSum(3.2, 4.9))
  const AliceV0A := Config("ALICE_V0A", Single(V0AFile), FirstRowValue)
  const AliceV0C := Config("ALICE_V0C", Single(V0CFile), FirstRowValue)
  const AliceV0Combined := Config("ALICE_V0_combined",
                                  Several([V0AFile, V0CFile]),
                                  FirstRowValueSum)
  const AliceFT0A := Config("ALICE_FTOA", Single("particle_9999_vndata_eta_3.1_4.9.dat"), FirstRowValue)
  const AliceFT0C := Config("ALICE_FTOC", Single("particle_9999_vndata_eta_-3.9_-3.1.dat"), FirstRowValue)
  const WideEta := Config("wide_eta", Single("particle_9999_vndata_eta_-2.5_2.5.dat"), FirstRowValue)
  const NcollConfig := Config("Ncoll", Single(Glob.NcollPattern), RowCount)
  const NpartConfig := Config("Npart", Single(Glob.NpartPattern), ColumnSum(3))

  const CentralityConfigs: seq<Config> :=
    [CentralDNdy, CentralET, AtlasFCal, AliceV0A, AliceV0C, AliceV0Combined,
     AliceFT0A, AliceFT0C, WideEta, NcollConfig, NpartConfig]

  lemma V0AFileIsLiteral()
    ensures !Glob.HasWildcard(V0AFile)
  {
  }

  lemma V0CFileIsLiteral()
    ensures !Glob.HasWildcard(V0CFile)
  {
  }

  /**
    The combined V0 observable is the V0A observable plus the V0C observable,
    and is absent exactly when either of them is.
   */
  lemma CombinedV0IsSumOfSides(group: Group)
    ensures Extract(group, AliceV0Combined).Some? <==>
              Extract(group, AliceV0A).Some? && Extract(group, AliceV0C).Some?
    ensures Extract(group, AliceV0Combined).Some? ==>
              Extract(group, AliceV0Combined).value ==
                Extract(group, AliceV0A).value + Extract(group, AliceV0C).value
  {
    V0AFileIsLiteral();
    V0CFileIsLiteral();
    PairSumIsSumOfParts(group, AliceV0Combined.key, AliceV0A.key, AliceV0C.key, V0AFile, V0CFile);
  }
}
