# Centrality classes and class averages of a heavy-ion event database

This project models the pure logic of three utility scripts of a heavy-ion event-generator toolkit. Together they turn a database of simulated collision events into centrality classes, and then into per-class averages and per-event summaries:

- `utilities/split_into_centralities_flexible.py` reads one centrality observable per event for each of eleven configurations. An observable is a multiplicity in some pseudorapidity window, a transverse-energy sum, Ncoll or Npart. The script then sorts the events by that observable and cuts them into percentile classes `C0-5`, `C5-10`, …, `C90-100`.
- `utilities/centrality_average_h5.py` picks a class mapping. For every class it averages every dataset elementwise over the member events that hold it.
- `utilities/collect_event_summary_to_h5.py` reduces one event to its flow harmonics, mean transverse momentum, multiplicity, Ncoll and Npart.

The model is written in Dafny:

- An event group (an HDF5 group) is an ordered list of named arrays (`Datasets.Group`). Key order matters, because a wildcard spec takes the first matching key.
- The database is an ordered list of named groups.
- Arrays are rectangular matrices of cells `Num(real) | NaN`, and `nan_to_num` replaces NaN by 0.
- Observables are exact reals.
- Cut points are integer percentages, and `int(N * c / 100.)` is modelled as the integer division `N * c / 100`. The two agree for every event count N up to 2^46; see "## Left out".
- The configuration lambdas become five reductions of a tagged variant (`Extraction.Reduction`).
- Every exception the extractor catches becomes `None`.
- An exception that aborts a summary script becomes the `Raises` outcome.
- In `load_centrality_mapping`, `None` stands for the uncaught `KeyError` (absent key) or `IndexError` (empty mapping file) that aborts the averaging script.

Modules, in dependency order:

- `Wrappers`: `Option`.
- `Glob`: `fnmatch` for `*` and `?`.
- `Datasets`: cells, matrices, sums, named lists, exact and pattern lookup, and filtering of present entries.
- `Extraction`: `extract_centrality_variable` and the registered configurations.
- `Sorting`: the descending sort.
- `Labels`: the `C{lo}-{hi}` labels.
- `Binning`: the percentile loop of one configuration.
- `Classification`: the loop over events and configurations.
- `Scenarios`: a worked ten-event split.
- `Averaging`: mapping selection and `average_datasets`.
- `EventSummary`: `get_vn_meanpT_mult` and `get_ncoll_npart`.

### Class boundaries

- Every class except the last (the one ending at 100 %) is open below: `low < v <= high`. The last class is closed below: `low <= v <= high`. An event whose observable equals the lower threshold of a class other than the last therefore belongs to a later class: the first later class whose lower threshold lies below its observable, or the last class. Because tied values give tied thresholds, that can skip several classes. With sorted observables 3, 2, 2, 2, 1 and cuts 0, 20, 40, 60, 100, `C0-20` is (2, 3], `C20-40` and `C40-60` are (2, 2] and empty, and the three events at 2 land in `C60-100` = [1, 2] together with the event at 1 (`Scenarios.TiedValuesSkipClasses`). With ten events of observables 100, 90, …, 10, the 0–50 % class is 50 < v ≤ 100, so the event with observable 50 is in `C50-100` (`Scenarios.TenEventsSplitInHalves`).
- Members are selected by comparing values with thresholds, so events with equal observables always share a class, whatever order `argsort` leaves them in (`Binning.ClassifyMonotone`, `Sorting.DescendingIsUnique`).

### Npart

- `get_ncoll_npart` sums column 3 of the Npart array without replacing NaN, unlike every other reader. A NaN there makes `int(...)` raise, and the model says so (`EventSummary.Npart`).

## Model

| member | source | states |
|---|---|---|
| Glob.LiteralMatchesOnlyItself | utilities/split_into_centralities_flexible.py:103-116 | a pattern without `*` or `?` matches exactly one name, itself, so treating it as an exact key loses nothing |
| Glob.PrefixStarSuffix | utilities/collect_event_summary_to_h5.py:41 | a pattern literal + `*` + literal matches exactly the names that start with the first literal and end with the second, and are long enough to hold both |
| Glob.NcollPatternMeaning | utilities/collect_event_summary_to_h5.py:41 | `NcollList*.dat` selects exactly the names of at least 13 characters that begin `NcollList` and end `.dat` |
| Glob.NpartPatternMeaning | utilities/collect_event_summary_to_h5.py:49 | `NpartList*.dat` selects exactly the names of at least 13 characters that begin `NpartList` and end `.dat` |
| Datasets.Clean | utilities/split_into_centralities_flexible.py:120 | `nan_to_num` keeps the shape, turns every NaN into 0 and keeps every number |
| Datasets.Lookup | utilities/split_into_centralities_flexible.py:116 | `group.get(name)` finds something exactly when the name is a key, and then finds the entry stored under it |
| Datasets.FirstMatching | utilities/split_into_centralities_flexible.py:105-112 | nothing is found exactly when no key matches the pattern; otherwise the result is the entry at the first matching position in key order |
| Datasets.LookupPresent | utilities/split_into_centralities_flexible.py:200-205 | after dropping absent values from a list with distinct keys, looking up a key gives its value if it was present and nothing otherwise |
| Extraction.WindowedSum | utilities/split_into_centralities_flexible.py:32 | the windowed column sum is the whole column's sum when every row's key is in the window, and 0 when none is |
| Extraction.WindowedSumOne | utilities/split_into_centralities_flexible.py:32 | one row adds its value to the windowed sum exactly when its key lies in the closed window |
| Extraction.WindowedSumAppend | utilities/split_into_centralities_flexible.py:32 | the windowed sum of stacked rows is the sum of the parts' windowed sums; with `WindowedSumOne` this fixes the value for every mix of rows inside and outside the window |
| Extraction.ReduceOne | utilities/split_into_centralities_flexible.py:22-89 | each lambda's result on one array: `data[0,1]` needs a row and two columns; the window sum needs two columns; the row count always succeeds; a column sum needs the column; the list sum over a single array gives 0 only for an array with no rows |
| Extraction.ReduceMany | utilities/split_into_centralities_flexible.py:53-58 | only the list reduction accepts a list of arrays, and it succeeds exactly when every array has a `[0, 1]` entry |
| Extraction.Resolve | utilities/split_into_centralities_flexible.py:101-116 | a spec without wildcards is an exact lookup; a spec with one gives nothing exactly when no key matches, and otherwise the array of a matching key with no earlier match |
| Extraction.ResolveAll | utilities/split_into_centralities_flexible.py:124-131 | a list spec gives nothing exactly when one of its names is missing; otherwise one array per name, each the array stored under that name |
| Extraction.Extract | utilities/split_into_centralities_flexible.py:94-139 | the observable is absent, never an error, for an unsupported spec, a missing exact name, a wildcard with no match, or a list with a missing name |
| Extraction.FirstMatchIsFirstOfItsName | utilities/split_into_centralities_flexible.py:111-113 | re-reading the first matching key by its name gives back that same array |
| Extraction.WildcardResolvesToFirstMatch | utilities/split_into_centralities_flexible.py:103-113 | a wildcard spec yields the same observable as the exact name of the first matching key |
| Extraction.ExtractSeesOnlySanitizedData | utilities/split_into_centralities_flexible.py:120-121 | two events whose arrays agree after NaN→0 have the same observable, for every configuration |
| Extraction.ListSpecSumsInOrder | utilities/split_into_centralities_flexible.py:124-132 | with every listed array present and non-empty, the list observable is the sum of their cleaned `[0, 1]` entries in configured order |
| Extraction.PairSumIsSumOfParts | utilities/split_into_centralities_flexible.py:124-132 | the list sum over two exact names exists exactly when both single-name `[0, 1]` observables exist, and is their sum |
| Extraction.CombinedV0IsSumOfSides | utilities/split_into_centralities_flexible.py:41-58 | the combined V0 observable is the V0A observable plus the V0C observable, and is absent exactly when either one is |
| Sorting.SortDescending | utilities/split_into_centralities_flexible.py:211-214 | the sorted observables are in descending order and are a permutation of the input |
| Sorting.DescendingIsUnique | utilities/split_into_centralities_flexible.py:213 | two descending arrangements of the same values are identical, so the order among ties cannot matter |
| Sorting.SortIgnoresInputOrder | utilities/split_into_centralities_flexible.py:211-214 | any reordering of the events sorts to the same value sequence |
| Labels.DecimalRoundTrip | utilities/split_into_centralities_flexible.py:226 | the decimal rendering of a cut percentage reads back as that percentage |
| Labels.LabelInjective | utilities/split_into_centralities_flexible.py:226 | two cut pairs share a `C{lo}-{hi}` label only when they are the same pair |
| Binning.LowerIndex | utilities/split_into_centralities_flexible.py:233-239 | the lower threshold's position is always a valid index into the sorted values; `Binning.BinThresholds` reads both thresholds at `Binning.UpperIndex` and this position |
| Binning.UpperIndexInRange | utilities/split_into_centralities_flexible.py:229-231 | for a cut below 100 % the upper threshold's position `Binning.UpperIndex` is a valid index |
| Binning.UpperIndexMonotone | utilities/split_into_centralities_flexible.py:229-231 | a larger cut percentage never gives an earlier upper-threshold position |
| Binning.AdjacentBinsMeet | utilities/split_into_centralities_flexible.py:229-239 | below the last class, a class's excluded lower threshold is the next class's upper threshold |
| Binning.HighsDescend | utilities/split_into_centralities_flexible.py:229-231 | upper thresholds never increase from one class to the next |
| Binning.BinExists | utilities/split_into_centralities_flexible.py:241-251 | every value between the smallest and largest observable falls in some class of a standard cut list, the class test being `Binning.InBin` |
| Binning.BinOrder | utilities/split_into_centralities_flexible.py:241-251 | a value at least as high as another never lies in a later class by `Binning.InBin` |
| Binning.LabelsUpToMeaning | utilities/split_into_centralities_flexible.py:222-226 | a label exists after the first k pairs exactly when one of them is not skipped and carries it |
| Binning.AddToClass | utilities/split_into_centralities_flexible.py:253-259 | adding members creates the class if it is missing, overwrites only the members added, and leaves every other class unchanged |
| Binning.BinPairs | utilities/split_into_centralities_flexible.py:222-262 | the loop's mapping has one key per non-skipped pair, empty or not, and every stored event carries its own observable |
| Binning.BinPairsContent | utilities/split_into_centralities_flexible.py:253-262 | for a standard cut list, the class under pair i's label holds exactly pair i's members |
| Binning.StandardLabelsDistinct | utilities/split_into_centralities_flexible.py:226 | the pairs of a standard cut list have pairwise distinct labels |
| Binning.Classify | utilities/split_into_centralities_flexible.py:211-262 | the class keys of one configuration are the labels of the non-skipped pairs, and every stored event is a valid one carrying its own observable |
| Binning.ClassIndex | utilities/split_into_centralities_flexible.py:222-262 | every class label comes from one cut pair, and the class holds that pair's members |
| Binning.ClassifyPartition | utilities/split_into_centralities_flexible.py:241-251 | with ascending cuts from 0 to 100, every valid event is in exactly one class, stored with its own observable |
| Binning.ClassifyMonotone | utilities/split_into_centralities_flexible.py:241-251 | a higher observable is never in a class with a larger lower percentage, and equal observables share a class |
| Classification.CentralityCutsAreStandard | utilities/split_into_centralities_flexible.py:91-92 | the script's cut list ascends strictly from 0 % to 100 %, so no pair is skipped and no index goes out of range |
| Classification.ValidEventsAppend | utilities/split_into_centralities_flexible.py:200-205 | events are filtered independently: the valid events of two runs of events are those of each, concatenated |
| Classification.ValidEventIndex | utilities/split_into_centralities_flexible.py:203-205 | an event with a present observable is among the valid events, with that observable |
| Classification.ValidEventOrigin | utilities/split_into_centralities_flexible.py:203-205 | every valid event is an event of the database, carrying its extracted observable |
| Classification.NoValidEvents | utilities/split_into_centralities_flexible.py:207-209 | there are no valid events exactly when every event's observable is absent |
| Classification.ValidEventsDistinct | utilities/split_into_centralities_flexible.py:200-205 | distinct event ids stay distinct among the valid events |
| Classification.ClassifyConfig | utilities/split_into_centralities_flexible.py:198-209 | a configuration yields no mapping exactly when no event has its observable |
| Classification.ConfigPartition | utilities/split_into_centralities_flexible.py:200-251 | an event whose observable is present is in exactly one class of its configuration, stored with its observable |
| Classification.ClassifiedEventsAreValid | utilities/split_into_centralities_flexible.py:200-262 | a classified event is an event of the database whose observable is present and is the value stored for it |
| Classification.ConfigMonotone | utilities/split_into_centralities_flexible.py:241-251 | within one configuration, a higher observable is never more peripheral and equal observables share a class |
| Classification.ClassifyAllAppend | utilities/split_into_centralities_flexible.py:194-268 | configurations are independent: classifying two lists of them concatenates the results |
| Classification.ClassifiedKeys | utilities/split_into_centralities_flexible.py:268 | every key of the result is a configuration's key |
| Classification.MappingOfEachConfig | utilities/split_into_centralities_flexible.py:207-268 | each configuration's key holds exactly its own mapping, or is missing when it had no valid event, whatever the other configurations do |
| Classification.RegistryKeysDistinct | utilities/split_into_centralities_flexible.py:22-89 | the eleven configuration keys are distinct |
| Classification.RegistryMapping | utilities/split_into_centralities_flexible.py:194-268 | the in-memory `all_centrality_mappings` holds, under each registered key, that configuration's mapping over the script's cuts, or no entry when it had no valid event |
| Scenarios.HalfLabels | utilities/split_into_centralities_flexible.py:226 | the cut pairs (0, 50) and (50, 100) are labelled `C0-50` and `C50-100` |
| Scenarios.TiedValuesSkipClasses | utilities/split_into_centralities_flexible.py:229-251 | with sorted observables 3, 2, 2, 2, 1 and cuts 0, 20, 40, 60, 100, the value 3 is only in the first class, the values 2 and 1 only in the last, and the first class's lower threshold is 2 |
| Scenarios.TenEventsSorted | utilities/split_into_centralities_flexible.py:211-214 | ten events with observables 100, 90, …, 10 are already in sorted order |
| Scenarios.TenEventsClasses | utilities/split_into_centralities_flexible.py:222-262 | the two halves are the only classes, each holding its cut pair's members |
| Scenarios.TenEventsThresholds | utilities/split_into_centralities_flexible.py:229-239 | the upper half is (50, 100] and the lower half [10, 50] |
| Scenarios.TenEventsSplitInHalves | utilities/split_into_centralities_flexible.py:241-251 | the five highest events form `C0-50`; the other five form `C50-100`, including the event at the 50 % threshold |
| Averaging.LoadCentralityMapping | utilities/centrality_average_h5.py:16-21 | with a key, the mapping stored under it and that key, or nothing when the key is absent; without one, the first stored mapping and its key, or nothing for an empty file |
| Averaging.DefaultIsFirst | utilities/centrality_average_h5.py:19-20 | without a key, the first stored mapping is the one used |
| Averaging.SelectMappings | utilities/centrality_average_h5.py:77-85 | without a key every stored mapping is walked; with a key, exactly the one stored under it, or nothing when it is absent |
| Averaging.LoadsWhatWasClassified | utilities/centrality_average_h5.py:16-21 | loading a configuration's key from a file holding the in-memory `all_centrality_mappings` gives that configuration's class mapping, or nothing when it had no valid event |
| Averaging.GatheredOrigin | utilities/centrality_average_h5.py:37-45 | every gathered array is the cleaned array of a listed event that holds the dataset |
| Averaging.GatheredIndex | utilities/centrality_average_h5.py:37-45 | every listed event that holds the dataset contributes its cleaned array |
| Averaging.NothingGathered | utilities/centrality_average_h5.py:46-47 | nothing is gathered exactly when no listed event holds the dataset |
| Averaging.GatheredAppend | utilities/centrality_average_h5.py:39-45 | gathering over two lists of events concatenates what each list gathers |
| Averaging.UnionMeaning | utilities/centrality_average_h5.py:30-35 | a name is in `Averaging.Union` exactly when some listed event in the file holds a dataset of that name |
| Averaging.UnionIsGathered | utilities/centrality_average_h5.py:30-47 | a name is collected exactly when something is gathered for it, so the skip on an empty list never fires |
| Averaging.MeanMatrix | utilities/centrality_average_h5.py:50-51 | the elementwise mean of same-shaped arrays has their shape |
| Averaging.AverageOf | utilities/centrality_average_h5.py:49-54 | the average is elementwise exactly when every gathered array has the first one's shape, and then has that shape |
| Averaging.AverageDatasets | utilities/centrality_average_h5.py:28-56 | the output names are exactly the union of dataset names over the listed events in the file |
| Averaging.AverageKeys | utilities/centrality_average_h5.py:30-55 | a name is output exactly when some listed event holds it |
| Averaging.MeanBounds | utilities/centrality_average_h5.py:51 | a mean of values in [lo, hi] lies in [lo, hi] |
| Averaging.MeanMatrixBounds | utilities/centrality_average_h5.py:50-51 | each element of the mean lies between bounds that hold that element of every averaged array |
| Averaging.MeanMatrixOfIdentical | utilities/centrality_average_h5.py:50-51 | averaging copies of one array gives that array |
| Averaging.AverageWithinBounds | utilities/centrality_average_h5.py:37-51 | each averaged element lies between any bounds on that element over the holders' cleaned arrays |
| Averaging.AverageOfIdentical | utilities/centrality_average_h5.py:37-51 | when every holder carries the same array, that array is the average |
| Averaging.NonHolderIgnored | utilities/centrality_average_h5.py:39-45 | listing one more event that does not hold a dataset changes neither whether it is output nor its average |
| Averaging.MissingEventIgnored | utilities/centrality_average_h5.py:31-40 | event ids missing from the file change nothing |
| Averaging.SmallClassGathered | utilities/centrality_average_h5.py:37-45 | in the worked class, A is gathered from e1 only, B from e1 and e2, and e3 (not in the file) contributes nothing |
| Averaging.SmallClassAverages | utilities/centrality_average_h5.py:28-56 | in the worked class, the outputs are A and B: A is e1's cleaned value and B the mean of e1's and e2's cleaned values |
| EventSummary.HarmonicCountBounds | utilities/collect_event_summary_to_h5.py:25 | `EventSummary.HarmonicCount` reads at most nine harmonics, none from fewer than five columns, and every column read exists |
| EventSummary.SumScale | utilities/collect_event_summary_to_h5.py:32 | scaling every weight scales the total weight |
| EventSummary.SumMonotone | utilities/collect_event_summary_to_h5.py:32 | the sum of a column grows with every entry |
| EventSummary.WeightedSumBounds | utilities/collect_event_summary_to_h5.py:29-32 | with non-negative weights and momenta in [lo, hi], the weighted momentum sum lies between lo and hi times the total weight |
| EventSummary.MeanPTWithinRange | utilities/collect_event_summary_to_h5.py:29-32 | the mean momentum `EventSummary.MeanPT` of a spectrum with non-negative, non-zero weights lies within the momentum range |
| EventSummary.MeanPTTimesMultiplicity | utilities/collect_event_summary_to_h5.py:32-34 | mean momentum times multiplicity is the weighted momentum sum when the multiplicity is positive |
| EventSummary.VnMeanPTMult | utilities/collect_event_summary_to_h5.py:16-35 | all three results are absent exactly when the vn array is missing; the function raises exactly for fewer than two columns, or for harmonics to read from an array with no rows; otherwise it returns the harmonic count determined by the width |
| EventSummary.Ncoll | utilities/collect_event_summary_to_h5.py:38-45 | Ncoll is absent exactly when no key matches `NcollList*.dat`, and is otherwise the row count of the first match |
| EventSummary.Truncate | utilities/collect_event_summary_to_h5.py:53 | `int` of a float truncates toward zero |
| EventSummary.Npart | utilities/collect_event_summary_to_h5.py:46-54 | Npart is absent exactly when no key matches `NpartList*.dat`; it raises exactly when the first match lacks column 3 or has a NaN there; otherwise it is the truncated column-3 sum |
| EventSummary.NcollAgreesWithExtraction | utilities/collect_event_summary_to_h5.py:38-45 | the summary's Ncoll and the split script's Ncoll observable agree, as integer and real |
| EventSummary.NpartAgreesWithExtraction | utilities/collect_event_summary_to_h5.py:46-54 | when the summary finds Npart, it is the truncation of the split script's Npart observable; when no key matches, both are absent |

## Left out

- Reading and writing HDF5 and JSON files, argument parsing, exit codes and messages, the overwrite prompt, and the choice between gzip and scalar storage. These are I/O. The database, the stored mappings and the command-line key become parameters.
- The physical directory creation and the file moves after the mappings are built (`utilities/split_into_centralities_flexible.py` lines 277-326). These are filesystem side effects.
- Classification.RegistryMapping: the model stops at the in-memory `all_centrality_mappings`. The script then reads `all_centrality_mappings[physical_config_key]` without a guard (`utilities/split_into_centralities_flexible.py` line 275, key `central_dNdy` by default). When that configuration had no valid event, its entry was skipped at lines 207-209, the lookup raises `KeyError`, and the script stops before the JSON file is written at lines 328-334, so no mapping at all reaches disk. Averaging.LoadsWhatWasClassified likewise assumes the file was written.
- Averaging.LoadCentralityMapping: the `KeyError` for an absent key and the `IndexError` for an empty mapping file (`utilities/centrality_average_h5.py` lines 20-21) are not caught and abort the averaging script; the model returns `None` instead and does not model the abort. Averaging.SelectMappings inherits this.
- The second `create_group` of the same name when a mapping key is given (`utilities/centrality_average_h5.py` lines 80 and 86). It fails at the HDF5 level, outside the averaging logic.
- The per-class order in which member ids are listed. `average_datasets` takes them as a list, and the model accepts any list.
- Averaging.AverageOf: the fallback `np.mean(data_list)` for arrays of different shapes is recorded as `ShapeMismatch` and not computed, because its result on ragged lists depends on the numpy version.
- `nan_to_num`'s mapping of ±infinity to the largest finite float. Cells are a real number or NaN.
- Floating-point rounding and summation order. Observables, sums and means are exact reals. `int(N * c / 100.)` is modelled as the integer division `N * c / 100`. For N up to 2^46 (about 7·10^13 events) they agree: N·c ≤ 100·2^46 < 2^53 is exact in a double, and the quotient is at most 2^46, so the division rounds by less than 1/128, while a quotient that is not an integer lies at least 1/100 from the next integer. Above that bound the two can differ by one in either direction. For c = 90, `int(N * 90. / 100.)` evaluates to 360409510307600 for N = 400455011452890, where the model gives 360409510307601, and to 720981622354177 for N = 801090691504641, where the model gives 720981622354176.
- Binning.RunnableCuts: cut lists on which the script raises `IndexError` are not modelled: a kept pair starting at 100 % or more reads `sorted[N]`. Negative and fractional cut points are not modelled either; cut points are natural numbers. The script's own cut list is standard (`Classification.CentralityCutsAreStandard`).
- Datasets that are not two-dimensional (one-dimensional arrays and scalars).
- Bracket expressions `[...]` in `fnmatch` patterns. No pattern the scripts use contains one, and POSIX `fnmatch` is case-sensitive as modelled.
- The complex128 storage of the harmonics. They are pairs of reals (`EventSummary.Complex`).
- An exception in a summary reducer aborts the whole summary script. The model stops at the `Raises` outcome of the one event.
- The event-loop drivers in the `main` functions of `centrality_average_h5.py` and `collect_event_summary_to_h5.py`, which only call the modelled functions and write their results.
