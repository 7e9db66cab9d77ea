/**
  The per-configuration loop of `utilities/split_into_centralities_flexible.py`:
  every configuration extracts its observable from every event, keeps the events
  where it is present, and bins them; a configuration without a single valid
  event is left out of the result, and the others carry on.
 */
module Classification {
  import opened Wrappers
  import opened Datasets
  import opened Extraction
  import opened Sorting
  import opened Binning

  /** The script's cut points, in percent. */
  const CentralityCuts: seq<nat> := [0, 5, 10, 20, 30, 40, 50, 60, 70, 80, 90, 100]

  lemma CentralityCutsAreStandard()
    ensures StandardCuts(CentralityCuts)
  {
  }

  // ---------------------------------------------------------------------------
  // Valid events of one configuration

  /** `(event id, observable or nothing)` for every event, in database order. */
  function Observed(db: Database, config: Config): (obs: seq<Named<Option<real>>>)
    ensures |obs| == |db|
    ensures forall j {:trigger obs[j]} :: 0 <= j < |db| ==> obs[j] == Named(db[j].name, Extract(db[j].value, config))
  {
    seq(|db|, j requires 0 <= j < |db| => Named(db[j].name, Extract(db[j].value, config)))
  }

  /** `(event id, observable)` of every event whose observable is present, in database order. */
  function ValidEvents(db: Database, config: Config): seq<Named<real>> {
    Present(Observed(db, config))
  }

  /** Observing keeps the event ids, so distinct events stay distinct. */
  lemma ObservedDistinct(db: Database, config: Config)
    requires DistinctNames(db)
    ensures DistinctNames(Observed(db, config))
  {
  }

  /** Observing is pointwise: observing two runs of events concatenates the observations. */
  lemma {:induction false} ObservedAppend(a: Database, b: Database, config: Config)
    ensures Observed(a + b, config) == Observed(a, config) + Observed(b, config)
  {
    if |a| == 0 {
      assert a + b == b;
    } else {
      assert (a + b)[0] == a[0] && (a + b)[1..] == a[1..] + b;
      ObservedAppend(a[1..], b, config);
    }
  }

  /** Filtering events is local: the valid events of two runs of events are those of each, concatenated. */
  lemma {:induction false} ValidEventsAppend(a: Database, b: Database, config: Config)
    ensures ValidEvents(a + b, config) == ValidEvents(a, config) + ValidEvents(b, config)
  {
    ObservedAppend(a, b, config);
    PresentAppend(Observed(a, config), Observed(b, config));
  }

  /** An event with a present observable is among the valid events, with that observable. */
  lemma ValidEventIndex(db: Database, config: Config, j: nat) returns (k: nat)
    requires j < |db| && Extract(db[j].value, config).Some?
    ensures k < |ValidEvents(db, config)|
    ensures ValidEvents(db, config)[k] == Named(db[j].name, Extract(db[j].value, config).value)
  {
    k := PresentIndex(Observed(db, config), j);
  }

  /** Every valid event comes from an event of the database whose observable it carries. */
  lemma ValidEventOrigin(db: Database, config: Config, k: nat) returns (j: nat)
    requires k < |ValidEvents(db, config)|
    ensures j < |db|
    ensures db[j].name == ValidEvents(db, config)[k].name
    ensures Extract(db[j].value, config) == Some(ValidEvents(db, config)[k].value)
  {
    j := PresentOrigin(Observed(db, config), k);
  }

  /** There are no valid events exactly when every event's observable is absent. */
  lemma NoValidEvents(db: Database, config: Config)
    ensures |ValidEvents(db, config)| == 0 <==> forall j :: 0 <= j < |db| ==> Extract(db[j].value, config).None?
  {
    var obs := Observed(db, config);
    NothingPresent(obs);
    assert forall j :: 0 <= j < |db| ==> obs[j].value == Extract(db[j].value, config);
  }

  /** Distinct event ids stay distinct among the valid events. */
  lemma ValidEventsDistinct(db: Database, config: Config)
    requires DistinctNames(db)
    ensures DistinctNames(ValidEvents(db, config))
  {
    ObservedDistinct(db, config);
    PresentDistinct(Observed(db, config));
  }

  // ---------------------------------------------------------------------------
  // One configuration's mapping

  /** One configuration's class mapping, or nothing when no event has a present observable. */
  function ClassifyConfig(db: Database, config: Config, cuts: seq<nat>): (r: Option<ClassMap>)
    requires RunnableCuts(cuts)
    ensures r.None? <==> forall j :: 0 <= j < |db| ==> Extract(db[j].value, config).None?
  {
    var valid := ValidEvents(db, config);
    NoValidEvents(db, config);
    if |valid| == 0 then None else Some(Classify(valid, cuts))
  }

  /**
    With a standard cut list and distinct event ids, an event whose observable is
    present is in exactly one class, stored with its own observable.
   */
  lemma ConfigPartition(db: Database, config: Config, cuts: seq<nat>, j: nat)
    requires StandardCuts(cuts) && DistinctNames(db)
    requires j < |db| && Extract(db[j].value, config).Some?
    ensures ClassifyConfig(db, config, cuts).Some?
    ensures exists l :: l in ClassifyConfig(db, config, cuts).value &&
              db[j].name in ClassifyConfig(db, config, cuts).value[l] &&
              ClassifyConfig(db, config, cuts).value[l][db[j].name].value == Extract(db[j].value, config).value
    ensures forall l, l' ::
              (l in ClassifyConfig(db, config, cuts).value &&
               db[j].name in ClassifyConfig(db, config, cuts).value[l] &&
               l' in ClassifyConfig(db, config, cuts).value &&
               db[j].name in ClassifyConfig(db, config, cuts).value[l']) ==>
              l == l'
  {
    var k := ValidEventIndex(db, config, j);
    ValidEventsDistinct(db, config);
    ClassifyPartition(ValidEvents(db, config), cuts, k);
  }

  /** A classified event is one of the events binned, stored with its observable. */
  lemma ClassifiedIsValid(valid: seq<Named<real>>, cuts: seq<nat>, l: string, id: string) returns (k: nat)
    requires |valid| >= 1 && RunnableCuts(cuts)
    requires l in Classify(valid, cuts) && id in Classify(valid, cuts)[l]
    ensures k < |valid| && valid[k].name == id && valid[k].value == Classify(valid, cuts)[l][id].value
  {
    var cm: ClassMap := Classify(valid, cuts);
    assert id in Names(valid) && cm[l][id].value == Lookup(valid, id).value;
    k := FirstNamed(valid, id).value;
  }

  /** Only events with a present observable are classified, each with that observable. */
  lemma ClassifiedEventsAreValid(db: Database, config: Config, cuts: seq<nat>, l: string, id: string) returns (j: nat)
    requires RunnableCuts(cuts) && ClassifyConfig(db, config, cuts).Some?
    requires l in ClassifyConfig(db, config, cuts).value && id in ClassifyConfig(db, config, cuts).value[l]
    ensures j < |db| && db[j].name == id
    ensures Extract(db[j].value, config) == Some(ClassifyConfig(db, config, cuts).value[l][id].value)
  {
    var valid := ValidEvents(db, config);
    assert ClassifyConfig(db, config, cuts) == Some(Classify(valid, cuts));
    var k := ClassifiedIsValid(valid, cuts, l, id);
    j := ValidEventOrigin(db, config, k);
  }

  /**
    Monotonicity and ties for one configuration: a higher observable is never in a
    more peripheral class, and equal observables always share a class.
   */
  lemma ConfigMonotone(db: Database, config: Config, cuts: seq<nat>, l1: string, a: string, l2: string, b: string)
    requires StandardCuts(cuts) && ClassifyConfig(db, config, cuts).Some?
    requires l1 in ClassifyConfig(db, config, cuts).value && a in ClassifyConfig(db, config, cuts).value[l1]
    requires l2 in ClassifyConfig(db, config, cuts).value && b in ClassifyConfig(db, config, cuts).value[l2]
    ensures ClassifyConfig(db, config, cuts).value[l1][a].value >= ClassifyConfig(db, config, cuts).value[l2][b].value ==>
              ClassifyConfig(db, config, cuts).value[l1][a].rangeLow <= ClassifyConfig(db, config, cuts).value[l2][b].rangeLow
    ensures ClassifyConfig(db, config, cuts).value[l1][a].value == ClassifyConfig(db, config, cuts).value[l2][b].value ==>
              l1 == l2
  {
    ClassifyMonotone(ValidEvents(db, config), cuts, l1, a, l2, b);
  }

  // ---------------------------------------------------------------------------
  // All configurations

  /** The configuration keys of a list of configurations. */
  function Keys(configs: seq<Config>): set<string> {
    set i | 0 <= i < |configs| :: configs[i].key
  }

  /** No key is used by two configurations (as in the script's dictionary). */
  predicate DistinctKeys(configs: seq<Config>) {
    forall i, j :: 0 <= i < j < |configs| ==> configs[i].key != configs[j].key
  }

  /** Every configuration's key with its mapping or nothing, in configuration order. */
  function Outcomes(db: Database, configs: seq<Config>, cuts: seq<nat>): (o: seq<Named<Option<ClassMap>>>)
    requires RunnableCuts(cuts)
    ensures |o| == |configs|
    ensures forall n {:trigger o[n]} :: 0 <= n < |configs| ==>
              o[n] == Named(configs[n].key, ClassifyConfig(db, configs[n], cuts))
  {
    if |configs| == 0 then []
    else
      assert forall n :: 1 <= n < |configs| ==> configs[1..][n - 1] == configs[n];
      [Named(configs[0].key, ClassifyConfig(db, configs[0], cuts))] + Outcomes(db, configs[1..], cuts)
  }

  /** `all_centrality_mappings`: configuration key to class mapping, for the configurations that have one. */
  function ClassifyAll(db: Database, configs: seq<Config>, cuts: seq<nat>): seq<Named<ClassMap>>
    requires RunnableCuts(cuts)
  {
    Present(Outcomes(db, configs, cuts))
  }

  lemma {:induction false} OutcomesAppend(db: Database, cs1: seq<Config>, cs2: seq<Config>, cuts: seq<nat>)
    requires RunnableCuts(cuts)
    ensures Outcomes(db, cs1 + cs2, cuts) == Outcomes(db, cs1, cuts) + Outcomes(db, cs2, cuts)
  {
    if |cs1| == 0 {
      assert cs1 + cs2 == cs2;
    } else {
      assert (cs1 + cs2)[0] == cs1[0] && (cs1 + cs2)[1..] == cs1[1..] + cs2;
      OutcomesAppend(db, cs1[1..], cs2, cuts);
    }
  }

  /** Configurations are independent: classifying two lists of configurations concatenates the results. */
  lemma {:induction false} ClassifyAllAppend(db: Database, cs1: seq<Config>, cs2: seq<Config>, cuts: seq<nat>)
    requires RunnableCuts(cuts)
    ensures ClassifyAll(db, cs1 + cs2, cuts) == ClassifyAll(db, cs1, cuts) + ClassifyAll(db, cs2, cuts)
  {
    OutcomesAppend(db, cs1, cs2, cuts);
    PresentAppend(Outcomes(db, cs1, cuts), Outcomes(db, cs2, cuts));
  }

  /** Every key of the result is a configuration's key. */
  lemma ClassifiedKeys(db: Database, configs: seq<Config>, cuts: seq<nat>, n: nat)
    requires RunnableCuts(cuts) && n < |ClassifyAll(db, configs, cuts)|
    ensures ClassifyAll(db, configs, cuts)[n].name in Keys(configs)
  {
    var o := Outcomes(db, configs, cuts);
    assert ClassifyAll(db, configs, cuts)[n].name in Names(o);
    var m :| 0 <= m < |o| && o[m].name == ClassifyAll(db, configs, cuts)[n].name;
  }

  /**
    Each configuration's key finds exactly that configuration's mapping, and
    nothing when it has no valid event, whatever happens to the other configurations.
   */
  lemma MappingOfEachConfig(db: Database, configs: seq<Config>, cuts: seq<nat>, i: nat)
    requires RunnableCuts(cuts) && DistinctKeys(configs) && i < |configs|
    ensures Lookup(ClassifyAll(db, configs, cuts), configs[i].key) == ClassifyConfig(db, configs[i], cuts)
  {
    var o := Outcomes(db, configs, cuts);
    assert o[i].name == configs[i].key;
    assert DistinctNames(o) by {
      forall a, b | 0 <= a < b < |o| ensures o[a].name != o[b].name {
        assert o[a].name == configs[a].key && o[b].name == configs[b].key;
      }
    }
    LookupPresent(o, i);
  }

  /** The script's eleven configurations have eleven different keys. */
  lemma RegistryKeysDistinct()
    ensures DistinctKeys(CentralityConfigs)
  {
  }

  /**
    The script's output: under each registered key, that configuration's
    mapping over the script's cut points, or no entry at all.
   */
  lemma RegistryMapping(db: Database, i: nat)
    requires i < |CentralityConfigs|
    ensures Lookup(ClassifyAll(db, CentralityConfigs, CentralityCuts), CentralityConfigs[i].key) ==
              ClassifyConfig(db, CentralityConfigs[i], CentralityCuts)
  {
    CentralityCutsAreStandard();
    RegistryKeysDistinct();
    MappingOfEachConfig(db, CentralityConfigs, CentralityCuts, i);
  }
}
