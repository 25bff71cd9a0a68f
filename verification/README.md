# RF coordination engine: a Dafny model

This project models the engine of an RF frequency-coordination tool for wireless
microphones and in-ear monitors. The tool keeps a list of channels, each tuned to a
frequency in kHz on an equipment profile. It computes the intermodulation products
those channels generate together: two-tone products of orders 3, 5, 7 and 9, and
three-tone third-order products. It reports every **conflict**, meaning a channel
closer to another channel or to a product than its profile allows. It also generates
new frequencies that are free of conflicts.

The repository holds two generations of this engine, and both are modelled.

- **The older `rfcoordinator` package.**
  - `Coordination` owns ids, channels, products and conflicts, and re-runs an `analyse` that scans sliding windows after every addition.
  - `Analyser` keeps a frequency-sorted channel list and adds and removes channels incrementally.
  - `Channel`, `Equipment`, `Conflict`, `AnalyserCalculations` and `Helpers.isSorted` come with them.
- **The newer `rfxp.coordinator` package.**
  - `Analyser` holds channels in insertion order, a sorted product list, the conflict list, per-type conflict counters and the number of invalid channels.
  - It adds, removes, updates and dry-runs (`checkArtifacts`) channels.
  - It generates new channels by a depth-first search over candidate frequencies (`addNewChannels` / `newChannel`).
  - `IntermodStore`, `ChannelGeneratorWrapper`, `Channel`, `Equipment`, `Range`, `Intermod` and the comparators come with it.

How the model works:

- **Object identity.** Java object identity (`==`, and `List.remove` where `equals` is not overridden) is modelled by a `handle` on every channel record. Products and conflicts refer to channels through `ChannelRef(handle, freq)`.
- **Mutable state.** Every engine is an immutable datatype, and every operation is a function or a method returning the new state.
- **Detection versus recording.** Detection (the module `Detection`) reads only frequencies, spacings and products. Recording a conflict in its victim's list, and the counters, belong to each engine.
- **The invariants.** An invariant ties each engine's lists together:
  - the product list is sorted;
  - it is a permutation of every product the listed channels form;
  - the conflict list is *sound* (every entry is a real clash);
  - it is *complete* (every clash is listed);
  - each channel's own list is its share of the engine's list.

  The engine operations are proved to keep these invariants.

Modules:

| module | file | models |
|---|---|---|
| `Errors` | errors.dfy | `Result`/`Option` and the exception kinds |
| `Calculations` | calculations.dfy | the five product-type flags |
| `Intermods` | intermod.dfy | `Intermod`: construction, frequency, `equals`, `compareTo` |
| `Spacing` | spacing.dfy | the clearances of a profile and the view of a channel the checks read |
| `Conflicts` | conflict.dfy | `Conflict` and channel validity |
| `Search` | search.dfy | both generations' `getNextImIndex` binary searches and the window scan |
| `Detection` | detection.dfy | the channel/channel and channel/product conflict checks |
| `Coverage` | coverage.dfy | sound and complete conflict lists |
| `IntermodOrder` | ordering.dfy | `Helpers.isSorted`, `mergeLists`, the stable sort, `removeIntermods` |
| `Products` | products.dfy | `calculateIntermods` and the product count |
| `Pruning` | pruning.dfy | grid arithmetic, the candidate-map loops and `removeConflictRange` |
| `Text` | text.dfy | `Integer.compare`, `String.compareTo`, case-insensitive order, `%d` |
| `RcEquipment`, `RcChannel` | rc_equipment.dfy, rc_channel.dfy | the older profile and channel |
| `RcAnalyser` | rc_analyser.dfy | the older `Analyser` |
| `RcCoordination` | rc_coordination.dfy | `Coordination` |
| `XpRange`, `XpEquipment`, `XpChannel`, `XpComparators` | xp_*.dfy | the newer range, profile, channel and comparators |
| `IntermodStores` | intermod_store.dfy | `IntermodStore` |
| `XpState`, `XpAnalyser` | xp_state.dfy, xp_analyser.dfy | the newer `Analyser`'s state and operations |
| `XpInvariant` | xp_invariant.dfy | the newer `Analyser`'s invariant |
| `XpArtifacts` | xp_artifacts.dfy | `checkArtifacts` |
| `XpGeneratorWrapper` | gen_wrapper.dfy | `ChannelGeneratorWrapper` |
| `XpGenerator` | xp_generator.dfy | `addNewChannels` / `newChannel` |

## Model

| member | source | states |
|---|---|---|
| Calculations.Calculations.Set | src/main/java/com/stevebunting/rfcoordinator/AnalyserCalculations.java:35-53 | setting the flag of one product type gives it the new value; the other four flags keep theirs |
| Calculations.Default | src/main/java/com/stevebunting/rfcoordinator/AnalyserCalculations.java:8-13 | a fresh flag set computes every product type: four two-tone types and the three-tone type |
| Conflicts.NewChannelConflict | src/main/java/com/stevebunting/rfcoordinator/Conflict.java:31-43 | succeeds exactly when both channels are non-null, otherwise an illegal argument; the result is a channel-spacing conflict naming the victim and the other channel, with no product |
| Conflicts.NewIntermodConflict | src/main/java/com/stevebunting/rfcoordinator/Conflict.java:45-57 | succeeds exactly when the channel and the product are non-null, otherwise an illegal argument; the result is an intermod-spacing conflict naming the victim and the product, with no other channel |
| Conflicts.NewWhiteSpaceConflict | src/main/java/com/stevebunting/rfcoordinator/Conflict.java:59-67 | succeeds exactly for a non-null channel; the result is a white-space conflict with neither a channel nor a product |
| Conflicts.KindDiscipline | src/main/java/com/stevebunting/rfcoordinator/Conflict.java:85-99 | `getConflictChannel` is non-null exactly for channel-spacing conflicts, `getConflictIntermod` exactly for intermod-spacing ones, and never both |
| Conflicts.ValidityOf | src/main/java/com/stevebunting/rfcoordinator/Channel.java:162-170 | VALID exactly when there are no conflicts; WARNING exactly when the only conflict is a white-space one; INVALID exactly when there are several conflicts or one that is not white-space |
| Conflicts.RemoveFirst | src/main/java/com/stevebunting/rfcoordinator/Channel.java:179-185 | `List.remove(Object)`: when the conflict is present one occurrence leaves (multiset difference, length minus one); otherwise the list is unchanged |
| Conflicts.NotInvolving | src/main/java/com/stevebunting/rfcoordinator/Coordination.java:204-216 | the conflicts kept after removing a channel are exactly those in which it is neither the victim, nor the other channel, nor a generator of the product |
| Conflicts.KindCountsSum | src/main/java/com/stevebunting/rfcoordinator/Coordination.java:313-326 | the channel-spacing, intermod-spacing and white-space counts add up to the length of the list |
| Detection.ImConflicts | src/main/java/com/stevebunting/rfxp/coordinator/Analyser.java:303-323 | a product is reported against the victim exactly when it is in the list, the victim is not one of its generators, and it is closer than the victim's clearance for its type; every report names the victim |
| Detection.ImClashInsideWindow | src/main/java/com/stevebunting/rfxp/coordinator/Analyser.java:274-291 | every product that clashes with a channel lies strictly inside `(freq - maxImSpacing, freq + maxImSpacing)`, the window the loop scans |
| Detection.WindowScanComplete | src/main/java/com/stevebunting/rfxp/coordinator/Analyser.java:274-291 | on a frequency-sorted product list, the window loop started at the split point reports exactly what a scan of the whole list reports |
| Detection.SearchedImConflicts | src/main/java/com/stevebunting/rfxp/coordinator/Analyser.java:274-291 | `getIMConflicts(channel, …)` with its binary search, on a frequency-sorted list, reports exactly the clashes of a full scan |
| Detection.ImConflictsAll | src/main/java/com/stevebunting/rfxp/coordinator/Analyser.java:250-262 | every clash between a listed channel and a listed product is reported, and only intermod-spacing conflicts are |
| Detection.SearchedImConflictsAll | src/main/java/com/stevebunting/rfxp/coordinator/Analyser.java:250-262 | the per-channel window loops over a frequency-sorted product list give the full scan of every channel against every product |
| Detection.ImConflictsAllSound | src/main/java/com/stevebunting/rfxp/coordinator/Analyser.java:250-262 | every reported conflict pairs a listed victim with a listed product that clashes with it |
| Detection.TwoChannelConflicts | src/main/java/com/stevebunting/rfcoordinator/Analyser.java:205-218 | one pair of channels yields the conflict in each direction in which they are closer than the victim's channel spacing, and nothing else; a channel never conflicts with itself |
| Detection.ChannelConflicts | src/main/java/com/stevebunting/rfxp/coordinator/Analyser.java:336-361 | every channel-spacing clash between `x` and a listed channel, in either direction, is reported, and every report is such a clash |
| IntermodOrder.IsSorted | src/main/java/com/stevebunting/rfcoordinator/Helpers.java:8-16 | the early-exit scan answers true exactly when every adjacent pair compares in order |
| IntermodOrder.ShortListsSorted | src/main/java/com/stevebunting/rfcoordinator/Helpers.java:8-16 | empty and one-element lists are sorted |
| IntermodOrder.ConstantListSorted | src/main/java/com/stevebunting/rfcoordinator/Helpers.java:8-16 | a list of equal elements is sorted |
| IntermodOrder.InversionUnsorted | src/main/java/com/stevebunting/rfcoordinator/Helpers.java:8-16 | one adjacent inversion makes the check fail |
| IntermodOrder.AdjacentSortedIffSorted | src/main/java/com/stevebunting/rfcoordinator/Helpers.java:8-16 | for well-formed products the adjacent check and pairwise sortedness by `compareTo` agree |
| IntermodOrder.Merge | src/main/java/com/stevebunting/rfxp/coordinator/Analyser.java:215-238 | `mergeLists` returns exactly the elements of both inputs (as a multiset) |
| IntermodOrder.MergeSorted | src/main/java/com/stevebunting/rfxp/coordinator/Analyser.java:215-238 | merging two sorted lists of well-formed products gives a sorted list |
| IntermodOrder.MergeTiesFavourSecond | src/main/java/com/stevebunting/rfxp/coordinator/Analyser.java:215-238 | on ties the merge takes from the second list: when no element of `a` is below any of `b`, the result is `b` then `a` |
| IntermodOrder.MergeOrderedBlocks | src/main/java/com/stevebunting/rfxp/coordinator/Analyser.java:215-238 | when every element of `a` is below every element of `b`, the result is `a` then `b` |
| IntermodOrder.Sort | src/main/java/com/stevebunting/rfxp/coordinator/IntermodStore.java:87-89 | the stable sort returns a permutation of its input |
| IntermodOrder.SortSorted | src/main/java/com/stevebunting/rfxp/coordinator/IntermodStore.java:87-89 | the sort of well-formed products is sorted by `compareTo` |
| IntermodOrder.SortOfSortedIsIdentity | src/main/java/com/stevebunting/rfxp/coordinator/IntermodStore.java:87-89 | the sort is stable: a sorted list comes back unchanged |
| IntermodOrder.WithoutGeneratorMembers | src/main/java/com/stevebunting/rfxp/coordinator/Analyser.java:369-374 | after `removeIntermods(h)` exactly the products `h` does not generate remain |
| IntermodOrder.WithoutGeneratorMultiplicity | src/main/java/com/stevebunting/rfcoordinator/Analyser.java:169-174 | each product keeps its multiplicity unless `h` generates it, when it disappears |
| IntermodOrder.WithoutGeneratorSorted | src/main/java/com/stevebunting/rfcoordinator/Analyser.java:169-174 | removing a channel's products keeps a sorted list sorted |
| Intermods.New | src/main/java/com/stevebunting/rfxp/coordinator/Intermod.java:36-72 | an illegal argument exactly when the type or the first or second generator is null; a three-tone product without a third generator is a null reference; otherwise a two-tone product of order 2k+1 lies at (k+1)·f1 − k·f2 and a three-tone product at f1 + f2 − f3 |
| Intermods.TwoToneProductSpacing | src/main/java/com/stevebunting/rfxp/coordinator/Intermod.java:50-64 | a two-tone product of order 2k+1 lies k channel gaps beyond its first generator |
| Intermods.CompareAntisymmetric | src/main/java/com/stevebunting/rfxp/coordinator/Intermod.java:87-101 | swapping the arguments of `compareTo` flips its sign |
| Intermods.CompareOrdersByFrequency | src/main/java/com/stevebunting/rfxp/coordinator/Intermod.java:87-101 | `compareTo` orders first by frequency |
| Intermods.EqualsIffCompareZero | src/main/java/com/stevebunting/rfxp/coordinator/Intermod.java:75-84 | for well-formed products `equals` holds exactly when `compareTo` is zero |
| Intermods.LeTotal | src/main/java/com/stevebunting/rfxp/coordinator/Intermod.java:87-101 | any two products are ordered one way or the other |
| Intermods.LeTransitive | src/main/java/com/stevebunting/rfxp/coordinator/Intermod.java:87-101 | the order is transitive on well-formed products |
| IntermodStores.NewStore | src/main/java/com/stevebunting/rfxp/coordinator/IntermodStore.java:13-16 | a new store holds no products and no backups |
| IntermodStores.Add | src/main/java/com/stevebunting/rfxp/coordinator/IntermodStore.java:18-20 | `add` appends the product, unsorted, and leaves the backups alone |
| IntermodStores.Remove | src/main/java/com/stevebunting/rfxp/coordinator/IntermodStore.java:22-27 | after `remove(h)` exactly the products `h` does not generate remain |
| IntermodStores.SortStore | src/main/java/com/stevebunting/rfxp/coordinator/IntermodStore.java:87-89 | `sort` permutes the current list in place |
| IntermodStores.Push | src/main/java/com/stevebunting/rfxp/coordinator/IntermodStore.java:29-31 | `pushToBackupStack` keeps the contents and saves one more reference |
| IntermodStores.Pop | src/main/java/com/stevebunting/rfxp/coordinator/IntermodStore.java:33-35 | with no backups, an index-out-of-bounds error; otherwise the last saved list object becomes current again and leaves the stack |
| IntermodStores.MergeIn | src/main/java/com/stevebunting/rfxp/coordinator/IntermodStore.java:37-60 | `mergeIn` makes a new list object holding both lists' products, leaving every saved list untouched |
| IntermodStores.NextImIndex | src/main/java/com/stevebunting/rfxp/coordinator/IntermodStore.java:62-85 | on a frequency-sorted store the search returns the split point: products before it are at or below the limit, products from it on are above |
| IntermodStores.ForRangeIsWindow | src/main/java/com/stevebunting/rfxp/coordinator/IntermodStore.java:109-114 | on a frequency-sorted store `forRange(lo, hi)` visits exactly the products strictly between `lo` and `hi`, in order |
| IntermodStores.IsEmptyIffSizeZero | src/main/java/com/stevebunting/rfxp/coordinator/IntermodStore.java:91-97 | `isEmpty` answers whether `size` is zero, that is, whether no product is held |
| IntermodStores.MergeInSorted | src/main/java/com/stevebunting/rfxp/coordinator/IntermodStore.java:37-60 | merging a sorted list into a sorted store leaves it sorted and holding both |
| IntermodStores.RemoveKeepsSorted | src/main/java/com/stevebunting/rfxp/coordinator/IntermodStore.java:22-27 | `remove` keeps a sorted store sorted |
| IntermodStores.SortStoreSorted | src/main/java/com/stevebunting/rfxp/coordinator/IntermodStore.java:87-89 | `sort` leaves the store sorted |
| IntermodStores.PushMergePopRestores | src/main/java/com/stevebunting/rfxp/coordinator/IntermodStore.java:29-60 | push, merge in, pop gives back the contents and backups before the push |
| IntermodStores.PushAddPopKeeps | src/main/java/com/stevebunting/rfxp/coordinator/IntermodStore.java:18-35 | push, add, pop keeps the addition, because the saved reference is the same list object |
| IntermodStores.PushRemovePopKeeps | src/main/java/com/stevebunting/rfxp/coordinator/IntermodStore.java:22-35 | push, remove, pop keeps the removal for the same reason |
| Products.PairProductsContents | src/main/java/com/stevebunting/rfxp/coordinator/Analyser.java:176-191 | each enabled two-tone type adds its product in both orientations, and nothing else is added: twice the number of enabled two-tone types |
| Products.PairProducts | src/main/java/com/stevebunting/rfxp/coordinator/Analyser.java:176-191 | the two-tone products of one pair are well formed, of enabled two-tone types, and generated by exactly that pair |
| Products.TripleProducts | src/main/java/com/stevebunting/rfxp/coordinator/Analyser.java:192-201 | the three-tone products are well formed, of type 3T3O, and generated by both the new channel and the list channel |
| Products.TripleProductsCount | src/main/java/com/stevebunting/rfxp/coordinator/Analyser.java:192-201 | three rotations for each later list channel that is not the new one |
| Products.NewFrom | src/main/java/com/stevebunting/rfxp/coordinator/Analyser.java:168-207 | every product `calculateIntermods(x)` builds is well formed, of an enabled type and generated by `x` |
| Products.SortedNewFrom | src/main/java/com/stevebunting/rfxp/coordinator/Analyser.java:168-207 | with the final sort, the result is a sorted permutation of those products |
| Products.NewFromCount | src/main/java/com/stevebunting/rfxp/coordinator/Analyser.java:168-207 | a new channel with `m` other channels listed forms 2·s·m + 3·t·m(m−1)/2 products, with `s` two-tone types and `t` three-tone types enabled |
| Products.FormulaCountsAdditions | src/test/java/com/stevebunting/rfxp/coordinator/TestHelpers.java:31-42 | the expected product count of `TestHelpers.expectedIntermods` (rfxp), which `AnalyserTests` and `FrequencyGenerationTests` assert, for `n` channels equals 2·s·C(n,2) + 3·t·C(n,3), what the additions produce |
| Products.AddToAll | src/main/java/com/stevebunting/rfxp/coordinator/Analyser.java:72-88 | inserting a new channel anywhere and computing its products extends the accumulated product list by exactly those products |
| Products.WithoutNewFrom | src/main/java/com/stevebunting/rfcoordinator/Analyser.java:169-174 | removing `h`'s products from another channel's `calculateIntermods` gives what it would have computed without `h` listed |
| Products.RemoveFromAll | src/main/java/com/stevebunting/rfxp/coordinator/Analyser.java:369-374 | removing `h`'s products from the accumulated products gives the products of the history without `h` |
| Products.AllCount | src/test/java/com/stevebunting/rfxp/coordinator/TestHelpers.java:31-42 | a history of `n` distinct channels, all listed, yields exactly the number of products `TestHelpers.expectedIntermods` (rfxp) expects |
| Pruning.FirstValid | src/main/java/com/stevebunting/rfxp/coordinator/ChannelGeneratorWrapper.java:57-60 | the first valid frequency is a multiple of the tuning accuracy and lies within one step at or above the lower bound |
| Pruning.FirstValidIsLeast | src/main/java/com/stevebunting/rfxp/coordinator/ChannelGeneratorWrapper.java:57-60 | it is the least multiple at or above the lower bound |
| Pruning.FirstValidAny | src/main/java/com/stevebunting/rfxp/coordinator/ChannelGeneratorWrapper.java:57-60 | for any accuracy: 0 for zero, the least multiple at or above the bound for a positive accuracy, the greatest multiple at or below it for a negative one |
| Pruning.Steps | src/main/java/com/stevebunting/rfxp/coordinator/Analyser.java:557-561 | the loop puts exactly `start`, `start + acc`, … up to `hi`, strictly increasing |
| Pruning.StepsCount | src/main/java/com/stevebunting/rfxp/coordinator/Analyser.java:557-561 | the loop runs `1 + (hi - start) / acc` times, or not at all when `start > hi` |
| Pruning.WindowPoints | src/main/java/com/stevebunting/rfxp/coordinator/Analyser.java:657-666 | the keys the removal loop visits are exactly the grid points strictly inside `(freq - spacing, freq + spacing)` |
| Pruning.PruneWindow | src/main/java/com/stevebunting/rfxp/coordinator/Analyser.java:642-667 | `removeConflictRange` only removes; far from the range it changes nothing; otherwise it removes exactly the grid points strictly inside the window |
| Pruning.PruneWindowExact | src/main/java/com/stevebunting/rfxp/coordinator/Analyser.java:660-662 | the early return loses nothing: on candidates inside the range the removal is exactly the window |
| Pruning.PruneWindowEmpty | src/main/java/com/stevebunting/rfxp/coordinator/Analyser.java:642-667 | a zero or negative clearance removes nothing |
| Pruning.SetMin | src/main/java/com/stevebunting/rfxp/coordinator/Analyser.java:692 | `Collections.min` of the key set is a key at or below every other key |
| Search.LowerBound | src/main/java/com/stevebunting/rfcoordinator/Analyser.java:296-305 | the binary search stays within its bracket and, on a frequency-sorted list bracketing the split point, returns the split point |
| Search.NextIndex | src/main/java/com/stevebunting/rfcoordinator/Analyser.java:315-317 | the search over the whole list returns the split point on a frequency-sorted list |
| Search.EarlyExitBound | src/main/java/com/stevebunting/rfxp/coordinator/Analyser.java:472-492 | the newer search with its early exit returns the split point as well |
| Search.EarlyExitNextIndex | src/main/java/com/stevebunting/rfxp/coordinator/Analyser.java:502-504 | the two-argument form searches the whole list |
| Search.NextIndexUnique | src/main/java/com/stevebunting/rfxp/coordinator/Analyser.java:472-492 | there is only one split point |
| Search.SearchVariantsAgree | src/main/java/com/stevebunting/rfxp/coordinator/Analyser.java:472-492 | on a frequency-sorted list the two generations' searches return the same index |
| Search.ScanVisitsWindow | src/main/java/com/stevebunting/rfxp/coordinator/IntermodStore.java:109-114 | starting at the split point, the scan up to `hi` visits exactly the window products |
| Text.IntCompare | src/main/java/com/stevebunting/rfxp/coordinator/ChannelFrequencyComparator.java:8-10 | `Integer.compare` is −1, 0 or 1 exactly by the order of its arguments |
| Text.CompareZeroIffEqual | src/main/java/com/stevebunting/rfxp/coordinator/Range.java:22-28 | `String.compareTo` is zero exactly for equal strings |
| Text.CompareAntisymmetric | src/main/java/com/stevebunting/rfxp/coordinator/Range.java:22-28 | swapping the arguments of `String.compareTo` negates it |
| Text.Fold | src/main/java/com/stevebunting/rfxp/coordinator/ChannelNameComparator.java:8-11 | case folding lowers the ASCII capitals and leaves every other character alone |
| Text.CompareIgnoreCaseZero | src/main/java/com/stevebunting/rfxp/coordinator/ChannelNameComparator.java:8-11 | `compareToIgnoreCase` is zero exactly for names equal up to case |
| Text.CompareIgnoreCaseAntisymmetric | src/main/java/com/stevebunting/rfxp/coordinator/ChannelNameComparator.java:8-11 | swapping the arguments of `compareToIgnoreCase` negates it |
| Text.NatToString | src/main/java/com/stevebunting/rfxp/coordinator/Channel.java:26-31 | the decimal rendering is non-empty, all digits, with no leading zero |
| Text.IntToString | src/main/java/com/stevebunting/rfxp/coordinator/Channel.java:26-31 | `%d` starts with a minus sign exactly for negative numbers |
| Text.NatToStringRoundTrip | src/main/java/com/stevebunting/rfxp/coordinator/Channel.java:26-31 | reading a rendered number back gives the number |
| Text.NatToStringInjective | src/main/java/com/stevebunting/rfxp/coordinator/Channel.java:26-31 | different ids give different default names |
| RcEquipment.Equipment.GetSpacing | src/main/java/com/stevebunting/rfcoordinator/Equipment.java:113-131 | each getter returns the clearance stored for its product type |
| RcEquipment.Equipment.MaxImSpacing | src/main/java/com/stevebunting/rfcoordinator/Equipment.java:133-135 | `getMaxImSpacing` is at least every product clearance and equal to one of them |
| RcEquipment.NewEquipment | src/main/java/com/stevebunting/rfcoordinator/Equipment.java:33-57 | a null manufacturer or model is stored as "", the range in MHz is stored in kHz, and the accuracy and six clearances are stored as given |
| RcEquipment.EqualsIsEquality | src/main/java/com/stevebunting/rfcoordinator/Equipment.java:61-77 | `equals` compares every stored field, so it holds exactly for equal profiles |
| RcEquipment.NullNamesAreEmpty | src/main/java/com/stevebunting/rfcoordinator/Equipment.java:44-45 | a null manufacturer and model give a profile equal to one with empty names |
| RcChannel.IsUntunable | src/main/java/com/stevebunting/rfcoordinator/Channel.java:56-58 | a zero tuning accuracy is a division by zero; otherwise a frequency is untunable exactly when it is not a multiple of the accuracy |
| RcChannel.TunableIffOnGrid | src/main/java/com/stevebunting/rfcoordinator/Channel.java:56-58 | a frequency is tunable exactly when it is a whole number of grid steps |
| RcChannel.UntunableIgnoresRange | src/main/java/com/stevebunting/rfcoordinator/Channel.java:56-58 | the profile's range plays no part in tunability |
| RcChannel.NewChannel | src/main/java/com/stevebunting/rfcoordinator/Channel.java:39-53 | a null profile is an illegal argument and an untunable frequency an invalid frequency; otherwise the channel has the given frequency and profile, id 0 for a null id, the name "Channel id+1", no conflicts, and is VALID |
| RcChannel.SetFreq | src/main/java/com/stevebunting/rfcoordinator/Channel.java:124-129 | an untunable frequency is rejected and leaves the channel; otherwise only the frequency changes |
| RcChannel.SetEquipment | src/main/java/com/stevebunting/rfcoordinator/Channel.java:147-155 | a null profile is an illegal argument; a profile on which the current frequency is untunable is an invalid frequency; otherwise only the profile changes |
| RcChannel.SetName | src/main/java/com/stevebunting/rfcoordinator/Channel.java:139-141 | only the name changes |
| RcChannel.AddConflict | src/main/java/com/stevebunting/rfcoordinator/Channel.java:172-177 | a null conflict is ignored; any other is appended |
| RcChannel.RemoveConflict | src/main/java/com/stevebunting/rfcoordinator/Channel.java:179-185 | answers true exactly when the conflict was present, and then one occurrence leaves; otherwise nothing changes |
| RcChannel.ClearConflicts | src/main/java/com/stevebunting/rfcoordinator/Channel.java:187-190 | the list is emptied, the channel is VALID, and nothing else changes |
| RcChannel.ValidityAfterOperations | src/main/java/com/stevebunting/rfcoordinator/Channel.java:162-170 | a first white-space conflict makes a channel WARNING and any other added conflict INVALID; removing the only conflict makes it VALID |
| RcChannel.EqualsIgnoresIdentity | src/main/java/com/stevebunting/rfcoordinator/Channel.java:61-65 | `equals(Channel)` holds exactly for channels that differ at most in identity, id and conflicts |
| RcChannel.CompareTo | src/main/java/com/stevebunting/rfcoordinator/Channel.java:68-70 | `compareTo` orders by frequency alone, with the sign of the difference |
| RcChannel.IdCompare | src/main/java/com/stevebunting/rfcoordinator/Channel.java:75-78 | the id comparator orders by id, then by frequency |
| RcChannel.IdCompareZero | src/main/java/com/stevebunting/rfcoordinator/ChannelIDComparator.java:8-11 | the id order is zero exactly for equal ids and frequencies, and swapping the arguments negates it |
| RcChannel.NameCompare | src/main/java/com/stevebunting/rfcoordinator/Channel.java:87-90 | the name comparator orders by name ignoring case, then by frequency |
| RcChannel.NameCompareZero | src/main/java/com/stevebunting/rfcoordinator/Channel.java:87-90 | the name order is zero exactly for names equal up to case on equal frequencies, and it is antisymmetric |
| RcChannel.AdjacentSortedIffFreqSorted | src/main/java/com/stevebunting/rfcoordinator/Helpers.java:8-16 | `isSorted` with `compareTo` accepts exactly the frequency-sorted channel lists |
| RcChannel.InsertIndex | src/main/java/com/stevebunting/rfcoordinator/Analyser.java:51-57 | the insertion point comes after every channel at or below the new frequency and before the first higher one |
| RcChannel.InsertInPlace | src/main/java/com/stevebunting/rfcoordinator/Coordination.java:83-92 | `channels.add(index, x)` gives the old records and `x`, one more element |
| RcChannel.InsertKeepsSorted | src/main/java/com/stevebunting/rfcoordinator/Coordination.java:83-92 | insertion keeps a frequency-sorted list sorted, and `x` lands at the insertion point |
| RcChannel.RemoveObject | src/main/java/com/stevebunting/rfcoordinator/Analyser.java:77 | `channels.remove(x)` compares by identity: the first record of the object goes; an absent object changes nothing |
| RcChannel.RemoveAtKeeps | src/main/java/com/stevebunting/rfcoordinator/Coordination.java:95-106 | removing one record keeps the list frequency-sorted and its objects distinct |
| RcAnalyser.Flags | src/main/java/com/stevebunting/rfcoordinator/Analyser.java:25-31 | the inner calculations object computes every product type |
| RcAnalyser.CalculateIntermods | src/main/java/com/stevebunting/rfcoordinator/Analyser.java:91-130 | the new channel's products are a sorted permutation of those it forms with every other listed channel, each generated by it |
| RcAnalyser.WindowConflicts | src/main/java/com/stevebunting/rfcoordinator/Analyser.java:327-354 | one pass of the window loop over a frequency-sorted product list finds exactly the victim's clashes |
| RcAnalyser.AnalyseIMSpacing | src/main/java/com/stevebunting/rfcoordinator/Analyser.java:327-354 | with no channels or no products nothing is reported; on a frequency-sorted product list every channel is checked against every product |
| RcAnalyser.AnalyseIMSpacingOne | src/main/java/com/stevebunting/rfcoordinator/Analyser.java:363-368 | the one-channel form reports exactly that channel's clashes with the products |
| RcAnalyser.AnalyseChannelSpacing | src/main/java/com/stevebunting/rfcoordinator/Analyser.java:227-233 | the conflicts added are exactly the channel-spacing clashes between `x` and every listed channel, in both directions |
| RcAnalyser.AddChannel | src/main/java/com/stevebunting/rfcoordinator/Analyser.java:46-70 | `x` is inserted in frequency order, the products grow by exactly `x`'s products, and the conflict list grows by `x` against the old products, the listed channels against the new products, and the channel-spacing checks |
| RcAnalyser.AddChannelChecked | src/main/java/com/stevebunting/rfcoordinator/Analyser.java:46-49 | a null channel is an illegal argument |
| RcAnalyser.TouchesIsInvolves | src/main/java/com/stevebunting/rfcoordinator/Analyser.java:182-196 | the test `removeConflicts` applies agrees with involvement except on white-space conflicts |
| RcAnalyser.KeepUntouched | src/main/java/com/stevebunting/rfcoordinator/Analyser.java:182-196 | the conflicts kept are exactly those the test does not match |
| RcAnalyser.KeepUntouchedIsNotInvolving | src/main/java/com/stevebunting/rfcoordinator/Analyser.java:182-196 | without white-space conflicts, the removal drops exactly the conflicts involving the channel |
| RcAnalyser.RemoveChannel | src/main/java/com/stevebunting/rfcoordinator/Analyser.java:72-80 | the channel's record leaves by identity, exactly the products it generates leave, and exactly the conflicts that touch it leave |
| RcAnalyser.RemoveChannelChecked | src/main/java/com/stevebunting/rfcoordinator/Analyser.java:72-75 | a null channel is an illegal argument |
| RcAnalyser.NewAnalyserInv | src/main/java/com/stevebunting/rfcoordinator/Analyser.java:33-43 | a new analyser satisfies the invariant |
| RcAnalyser.IntermodCount | src/main/java/com/stevebunting/rfcoordinator/Analyser.java:91-130 | with every type computed, `n` channels carry exactly 4·n(n−1) + n(n−1)(n−2)/2 products |
| RcAnalyser.AddChannelInv | src/main/java/com/stevebunting/rfcoordinator/Analyser.java:46-70 | adding a new channel object keeps the invariant: channels distinct and sorted, products sorted and equal to everything the channels form, conflict list sound and complete |
| RcAnalyser.AddSound | src/main/java/com/stevebunting/rfcoordinator/Analyser.java:46-70 | after `addChannel` every listed conflict is still a real clash |
| RcAnalyser.AddComplete | src/main/java/com/stevebunting/rfcoordinator/Analyser.java:46-70 | after `addChannel` every clash among the channels and products is listed |
| RcAnalyser.RemoveChannelInv | src/main/java/com/stevebunting/rfcoordinator/Analyser.java:72-80 | `removeChannel` keeps the invariant, the object leaving the history |
| RcAnalyser.RemoveCoverage | src/main/java/com/stevebunting/rfcoordinator/Analyser.java:72-80 | after `removeChannel` the conflict list is still sound and complete |
| RcCoordination.NewCoordination | src/main/java/com/stevebunting/rfcoordinator/Coordination.java:8-25 | a new coordination lists nothing, its id counter is zero, and every product type is computed |
| RcCoordination.ChannelPass | src/main/java/com/stevebunting/rfcoordinator/Coordination.java:127-150 | every conflict the channel loop of `analyse` reports is a real clash with the current channel as victim |
| RcCoordination.ImPass | src/main/java/com/stevebunting/rfcoordinator/Coordination.java:153-200 | every conflict the product loop reports is a real clash between the current channel and a listed product |
| RcCoordination.AnalyseFrom | src/main/java/com/stevebunting/rfcoordinator/Coordination.java:108-125 | the outer loop from any channel on reports only real clashes |
| RcCoordination.AnalyseAsWritten | src/main/java/com/stevebunting/rfcoordinator/Coordination.java:108-202 | `analyse` as written is sound: every conflict it reports holds |
| RcCoordination.AsWrittenMissesClash | src/main/java/com/stevebunting/rfcoordinator/Coordination.java:127-150 | three channels where C is closer to A than C's channel spacing, yet `analyse` as written does not report the conflict (C, A) |
| RcCoordination.ChannelRow | src/main/java/com/stevebunting/rfcoordinator/Coordination.java:127-150 | the intended channel loop: a conflict with the current victim is reported exactly when a listed channel clashes with it |
| RcCoordination.AnalyseFull | src/main/java/com/stevebunting/rfcoordinator/Coordination.java:108-202 | the intended `analyse` is sound and complete: it lists exactly the clashes among the channels and products |
| RcCoordination.Record | src/main/java/com/stevebunting/rfcoordinator/Coordination.java:266-275 | after clearing and re-adding, each channel's own list is its share of the found conflicts, and nothing else about the channel changes |
| RcCoordination.SameButConflicts | src/main/java/com/stevebunting/rfcoordinator/Coordination.java:266-275 | changing only the channels' conflict lists leaves what the checks read, and the list's order and distinctness, unchanged |
| RcCoordination.ChannelIndex | src/main/java/com/stevebunting/rfcoordinator/Coordination.java:278-286 | −1 exactly when no channel has the id; otherwise the first position holding it |
| RcCoordination.ChannelById | src/main/java/com/stevebunting/rfcoordinator/Coordination.java:294-300 | null exactly when no channel has the id; otherwise a listed channel with that id |
| RcCoordination.CalculateIntermods | src/main/java/com/stevebunting/rfcoordinator/Coordination.java:219-256 | the products grow by exactly those `x` forms with the other channels, and the list stays sorted |
| RcCoordination.AddChannel | src/main/java/com/stevebunting/rfcoordinator/Coordination.java:28-41 | a null profile is an illegal argument and an untunable frequency an invalid frequency; otherwise the returned id is the old counter, the counter grows by one, one channel is added, and the conflict list is exactly the clashes among channels and products |
| RcCoordination.UpdateFrequency | src/main/java/com/stevebunting/rfcoordinator/Coordination.java:44-62 | an unknown id changes nothing and returns null; an untunable frequency is rejected; otherwise the channel is retuned and re-listed, the channel count, counter and flags are kept, and the conflict list is left as it was |
| RcCoordination.UpdateName | src/main/java/com/stevebunting/rfcoordinator/Coordination.java:65-71 | an unknown id changes nothing and returns null; otherwise only that channel's name changes, and the renamed channel is returned |
| RcCoordination.UpdateEquipment | src/main/java/com/stevebunting/rfcoordinator/Coordination.java:74-80 | an unknown id changes nothing and returns null; otherwise the channel's `setEquipment` outcome decides, and on success only that channel's profile changes |
| RcCoordination.Unrecord | src/main/java/com/stevebunting/rfcoordinator/Coordination.java:204-216 | each channel's list loses exactly the conflicts involving the removed channel |
| RcCoordination.RemoveChannel | src/main/java/com/stevebunting/rfcoordinator/Coordination.java:95-106 | an unknown id changes nothing and returns null; otherwise one channel goes, exactly its products go, exactly the conflicts involving it go, and the counter and flags are kept |
| RcCoordination.NumConflictsOfType | src/main/java/com/stevebunting/rfcoordinator/Coordination.java:318-326 | the count of one kind is at most the number of conflicts and zero exactly when no conflict has that kind |
| RcCoordination.ConflictKindsSum | src/main/java/com/stevebunting/rfcoordinator/Coordination.java:313-326 | the three kinds' counts add up to `getNumConflicts` |
| RcCoordination.SetCalculate | src/main/java/com/stevebunting/rfcoordinator/Coordination.java:328-366 | each setter changes its own flag to the value and nothing else |
| RcCoordination.NewCoordinationInv | src/main/java/com/stevebunting/rfcoordinator/Coordination.java:8-25 | a new coordination satisfies the invariant, and its empty conflict list is exact |
| RcCoordination.SetCalculateEmpty | src/main/java/com/stevebunting/rfcoordinator/Coordination.java:328-366 | on an empty coordination the flags may change freely without breaking the invariant |
| RcCoordination.IntermodCount | src/main/java/com/stevebunting/rfcoordinator/Coordination.java:308-310 | `getNumIntermods` is 2·s·C(n,2) + 3·t·C(n,3) for `n` channels with `s` two-tone and `t` three-tone types enabled |
| RcCoordination.AddChannelInv | src/main/java/com/stevebunting/rfcoordinator/Coordination.java:28-41 | `addChannel` keeps the invariant, the new object joining the history, and leaves the conflict list exact |
| RcCoordination.RemoveChannelInv | src/main/java/com/stevebunting/rfcoordinator/Coordination.java:95-106 | `removeChannel` keeps the invariant, the object leaving the history; an unknown id keeps everything |
| RcCoordination.RemoveChannelAnalysed | src/main/java/com/stevebunting/rfcoordinator/Coordination.java:95-106 | `removeChannel` keeps the conflict list exact |
| RcCoordination.RemovedChannelCleared | src/main/java/com/stevebunting/rfcoordinator/Coordination.java:204-216 | the channel `removeChannel` returns holds no conflicts any more |
| RcCoordination.UpdateFrequencyInv | src/main/java/com/stevebunting/rfcoordinator/Coordination.java:44-62 | `updateChannel(id, frequency)` keeps the invariant, the object's old reference replaced by the new one |
| RcCoordination.UpdateNameInv | src/main/java/com/stevebunting/rfcoordinator/Coordination.java:65-71 | renaming keeps the invariant and the conflict list exact |
| RcCoordination.UpdateEquipmentInv | src/main/java/com/stevebunting/rfcoordinator/Coordination.java:74-80 | a new profile keeps the invariant (products read only frequencies) |
| RcCoordination.NoWhiteSpaceWhenAnalysed | src/main/java/com/stevebunting/rfcoordinator/Coordination.java:318-326 | an exact conflict list holds no white-space conflicts, so that kind counts zero |
| XpRange.NewRange | src/main/java/com/stevebunting/rfxp/coordinator/Range.java:13-19 | the ends are stored as given and a null name as "" |
| XpRange.RangeInclusive | src/main/java/com/stevebunting/rfxp/coordinator/Range.java:30-32 | both ends of a non-empty range are valid frequencies and the frequencies just outside are not |
| XpRange.Compare | src/main/java/com/stevebunting/rfxp/coordinator/Range.java:22-28 | `compareTo` orders by low end, then high end, then name |
| XpRange.CompareZeroIffSame | src/main/java/com/stevebunting/rfxp/coordinator/Range.java:22-28 | `compareTo` is zero exactly for ranges with the same ends and name |
| XpRange.CompareAntisymmetric | src/main/java/com/stevebunting/rfxp/coordinator/Range.java:22-28 | swapping the arguments negates `compareTo` |
| XpEquipment.Equipment.GetSpacing | src/main/java/com/stevebunting/rfxp/coordinator/Equipment.java:136-156 | `getSpacing(type)` returns the clearance stored for that product type |
| XpEquipment.Equipment.MaxImSpacing | src/main/java/com/stevebunting/rfxp/coordinator/Equipment.java:132-134 | `getMaxImSpacing` is at least every product clearance and equal to one of them |
| XpEquipment.Equipment.IsFrequencyValid | src/main/java/com/stevebunting/rfxp/coordinator/Equipment.java:69-72 | outside the range it is false; inside (or with no range) a zero accuracy is a division by zero, and otherwise it is true exactly for multiples of the accuracy |
| XpEquipment.NewEquipment | src/main/java/com/stevebunting/rfxp/coordinator/Equipment.java:46-67 | a null manufacturer or model is stored as ""; the accuracy, clearances and range are stored as given |
| XpEquipment.EqualsIgnoresRange | src/main/java/com/stevebunting/rfxp/coordinator/Equipment.java:77-91 | two profiles are equal exactly when they differ at most in their range |
| XpChannel.DefaultName | src/main/java/com/stevebunting/rfxp/coordinator/Channel.java:26-31 | the default name is "Channel " followed by the id plus one, 1 for a null id |
| XpChannel.NewChannel | src/main/java/com/stevebunting/rfxp/coordinator/Channel.java:33-49 | a null profile is an illegal argument and a frequency the profile rejects an invalid frequency; otherwise the channel has the given fields, id 0 for a null id, no range, no conflicts, and is VALID |
| XpChannel.NewDefaultChannel | src/main/java/com/stevebunting/rfxp/coordinator/Channel.java:26-31 | the three-argument constructor is the four-argument one with the default name |
| XpChannel.SetFreqAndEquipment | src/main/java/com/stevebunting/rfxp/coordinator/Channel.java:134-148 | a null profile is an illegal argument; the change happens exactly when the new profile accepts the new frequency, and then frequency, profile and range change together |
| XpChannel.SetFreq | src/main/java/com/stevebunting/rfxp/coordinator/Channel.java:123-128 | a frequency outside the channel's own range is rejected; otherwise the change happens exactly when the profile accepts it, and only the frequency changes |
| XpChannel.SetEquipment | src/main/java/com/stevebunting/rfxp/coordinator/Channel.java:130-132 | a null profile is an illegal argument; the change happens exactly when the new profile accepts the current frequency, and the range is cleared |
| XpChannel.ZeroAccuracyRefused | src/main/java/com/stevebunting/rfxp/coordinator/Channel.java:38-43 | the constructor, `setEquipment` and `setFreqAndEquipment` all refuse a profile with a zero tuning accuracy, whatever the frequency |
| XpChannel.SetName | src/main/java/com/stevebunting/rfxp/coordinator/Channel.java:107-109 | only the name changes |
| XpChannel.AddConflict | src/main/java/com/stevebunting/rfxp/coordinator/Channel.java:155-160 | a null conflict is ignored; any other is appended |
| XpChannel.RemoveConflict | src/main/java/com/stevebunting/rfxp/coordinator/Channel.java:162-168 | answers true exactly when the conflict was present, and then one occurrence leaves; otherwise nothing changes |
| XpChannel.ClearConflicts | src/main/java/com/stevebunting/rfxp/coordinator/Channel.java:170-173 | the list is emptied, the channel is VALID, and nothing else changes |
| XpChannel.EqualsEquivalence | src/main/java/com/stevebunting/rfxp/coordinator/Channel.java:75-83 | `equals` (profile, name, frequency) is reflexive, symmetric and transitive |
| XpChannel.CompareTo | src/main/java/com/stevebunting/rfxp/coordinator/Channel.java:86-88 | `compareTo` orders by frequency alone |
| XpChannel.ValidityAfterOperations | src/main/java/com/stevebunting/rfxp/coordinator/Channel.java:51-59 | a first white-space conflict makes a channel WARNING and any other added conflict INVALID; removing the only conflict makes it VALID |
| XpComparators.NameCompare | src/main/java/com/stevebunting/rfxp/coordinator/ChannelNameComparator.java:8-11 | names are compared ignoring case, then frequencies break the tie |
| XpComparators.NameCompareZero | src/main/java/com/stevebunting/rfxp/coordinator/ChannelNameComparator.java:8-11 | the order is zero exactly for names equal up to case on equal frequencies |
| XpComparators.NameCompareAntisymmetric | src/main/java/com/stevebunting/rfxp/coordinator/ChannelNameComparator.java:8-11 | swapping the arguments flips the sign |
| XpComparators.NameCompareReadsNameAndFrequency | src/main/java/com/stevebunting/rfxp/coordinator/ChannelNameComparator.java:8-11 | the order reads only names and frequencies |
| XpComparators.FrequencyCompare | src/main/java/com/stevebunting/rfxp/coordinator/ChannelFrequencyComparator.java:8-10 | `Integer.compare` of the frequencies: the sign of their difference, the same as `Channel.compareTo` |
| XpState.Zero | src/main/java/com/stevebunting/rfxp/coordinator/Analyser.java:47-52 | the constructor starts every product-type counter and the channel counter at zero |
| XpState.BumpMoves | src/main/java/com/stevebunting/rfxp/coordinator/Analyser.java:451-458 | a channel-spacing conflict moves the channel counter, an intermod-spacing one moves the counter of its product type, a white-space one moves none |
| XpState.CountersOfSnoc | src/main/java/com/stevebunting/rfxp/coordinator/Analyser.java:418-424 | appending a conflict moves the exact counters as `incrementConflictCounter(c, 1)` does |
| XpState.CountersOfDrop | src/main/java/com/stevebunting/rfxp/coordinator/Analyser.java:433-442 | taking one conflict out moves the exact counters as `incrementConflictCounter(c, -1)` does |
| XpState.AppendOn | src/main/java/com/stevebunting/rfxp/coordinator/Analyser.java:418-424 | `channel.addConflict(c)` on the object: every record of that object gets `c` appended, the others are untouched |
| XpState.RemoveOn | src/main/java/com/stevebunting/rfxp/coordinator/Analyser.java:433-442 | `channel.removeConflict(c)` on the object: its records lose the first occurrence, the others are untouched |
| XpState.NewAnalyser | src/main/java/com/stevebunting/rfxp/coordinator/Analyser.java:47-61 | the constructor: no channels, products or conflicts, zero counters, every product type enabled |
| XpState.UnrecordInvolving | src/main/java/com/stevebunting/rfxp/coordinator/Analyser.java:382-409 | the `removeIf` pass keeps the number of channel records |
| XpState.ReportBooks | src/main/java/com/stevebunting/rfxp/coordinator/Analyser.java:418-424 | reporting a conflict whose victim is listed keeps the bookkeeping: each channel's list its share, counters exact, invalid count right |
| XpState.RecordAllLists | src/main/java/com/stevebunting/rfxp/coordinator/Analyser.java:418-424 | each recorded conflict lands in its victim's list, after what was there |
| XpState.RemoveOnLists | src/main/java/com/stevebunting/rfxp/coordinator/Analyser.java:433-442 | the victim's list loses exactly this conflict when no earlier conflict of the list equals it |
| XpState.RemoveOnInvalidAt | src/main/java/com/stevebunting/rfxp/coordinator/Analyser.java:433-442 | removing a conflict the victim holds lowers the invalid count exactly when the victim becomes VALID |
| XpState.UnrecordInvolvingBooks | src/main/java/com/stevebunting/rfxp/coordinator/Analyser.java:382-409 | the whole `removeIf` pass keeps the bookkeeping, with exactly the conflicts not involving the channel left |
| XpAnalyser.NewIntermods | src/main/java/com/stevebunting/rfxp/coordinator/Analyser.java:168-207 | `calculateIntermods(x)` is a sorted permutation of the products `x` forms with every other listed channel, each generated by `x` and of an enabled type |
| XpAnalyser.AddChannel | src/main/java/com/stevebunting/rfxp/coordinator/Analyser.java:72-88 | `x` is appended, the products grow by exactly `x`'s products, the conflicts grow by `x` against the old products, every channel against the new products and the channel-spacing checks, and the flags are kept |
| XpAnalyser.AddChannelChecked | src/main/java/com/stevebunting/rfxp/coordinator/Analyser.java:72-75 | a null channel is an illegal argument |
| XpAnalyser.FirstEqual | src/main/java/com/stevebunting/rfxp/coordinator/Analyser.java:102 | `List.remove` by `equals` finds the first channel equal to `x`, or none |
| XpAnalyser.Sync | src/main/java/com/stevebunting/rfxp/coordinator/Analyser.java:97-108 | the records of the caller's object take its current fields, keeping their conflict lists; other records are untouched |
| XpAnalyser.RemoveChannel | src/main/java/com/stevebunting/rfxp/coordinator/Analyser.java:97-108 | reports removal exactly when a listed channel equals `x`; then one record goes, exactly the conflicts involving `x` and the products it generates go; otherwise nothing changes |
| XpAnalyser.RemoveChannelChecked | src/main/java/com/stevebunting/rfxp/coordinator/Analyser.java:97-100 | a null channel is an illegal argument |
| XpAnalyser.RemoveAbsent | src/main/java/com/stevebunting/rfxp/coordinator/Analyser.java:97-108 | when nothing is removed, the list does not hold the object `x` and the analyser is unchanged |
| XpAnalyser.UpdateChannel | src/main/java/com/stevebunting/rfxp/coordinator/Analyser.java:117-126 | `updateChannel` removes `x` and re-adds it only when the removal found a channel; the channel count is kept |
| XpAnalyser.UpdateChannelChecked | src/main/java/com/stevebunting/rfxp/coordinator/Analyser.java:117-120 | a null channel is an illegal argument |
| XpAnalyser.CountIntermodSum | src/main/java/com/stevebunting/rfxp/coordinator/Analyser.java:530-536 | the five per-type counts add up to the intermod-spacing count |
| XpAnalyser.GettersCount | src/main/java/com/stevebunting/rfxp/coordinator/Analyser.java:522-543 | with the bookkeeping in place, each getter answers what the lists hold: VALID channels, channel-spacing conflicts, intermod-spacing conflicts, per type, and 0 for a null type |
| XpAnalyser.CheckArtifacts | src/main/java/com/stevebunting/rfxp/coordinator/Analyser.java:136-156 | the dry run leaves the channel count, the engine's conflict list and the product list as they were |
| XpAnalyser.CheckArtifactsChecked | src/main/java/com/stevebunting/rfxp/coordinator/Analyser.java:136-139 | a null channel is an illegal argument |
| XpArtifacts.NewFromIgnoresSelf | src/main/java/com/stevebunting/rfxp/coordinator/Analyser.java:168-207 | `calculateIntermods(x)` skips `x` by identity, so listing `x` changes none of its products |
| XpArtifacts.OwnProductsNoConflict | src/main/java/com/stevebunting/rfxp/coordinator/Analyser.java:303-323 | a channel never clashes with its own products |
| XpArtifacts.ArtifactCountMatchesAdd | src/main/java/com/stevebunting/rfxp/coordinator/Analyser.java:136-156 | the count the dry run reports equals the number of conflicts `addChannel` of the same new channel would add |
| XpArtifacts.CheckArtifactsCount | src/main/java/com/stevebunting/rfxp/coordinator/Analyser.java:136-156 | the number `checkArtifacts` returns is that count, whether or not `x` is listed |
| XpArtifacts.UnbumpChannel | src/main/java/com/stevebunting/rfxp/coordinator/Analyser.java:151-153 | un-counting a list of conflicts lowers the channel counter by its channel-spacing conflicts |
| XpArtifacts.CheckArtifactsLeaksCounter | src/main/java/com/stevebunting/rfxp/coordinator/Analyser.java:136-156 | as written, a listed channel too close to a new candidate leaves the channel counter above the true count, so the bookkeeping is broken |
| XpInvariant.NewAnalyserInv | src/main/java/com/stevebunting/rfxp/coordinator/Analyser.java:47-61 | a new analyser satisfies the invariant |
| XpInvariant.AddChannelInv | src/main/java/com/stevebunting/rfxp/coordinator/Analyser.java:72-88 | adding a new channel object keeps the invariant: bookkeeping exact, products sorted and equal to what the channels form, conflict list sound and complete |
| XpInvariant.RemoveChannelInv | src/main/java/com/stevebunting/rfxp/coordinator/Analyser.java:97-108 | removing a listed channel (with no other listed channel equal to it) reports success, keeps the invariant and hands back the channel with no conflicts |
| XpInvariant.RemoveUnlisted | src/main/java/com/stevebunting/rfxp/coordinator/Analyser.java:97-108 | removing an unlisted object that equals no listed channel finds nothing |
| XpInvariant.UpdateChannelInv | src/main/java/com/stevebunting/rfxp/coordinator/Analyser.java:117-126 | when no other listed channel equals the updated one, `updateChannel` keeps the invariant: for a listed object it is a removal and a fresh addition, otherwise nothing changes |
| XpInvariant.IntermodCount | src/main/java/com/stevebunting/rfxp/coordinator/Analyser.java:168-207 | `n` listed channels carry exactly the number of products the rfxp `TestHelpers.expectedIntermods` expects, s·n(n−1) + t·n(n−1)(n−2)/2 |
| XpInvariant.ConflictCountersSum | src/main/java/com/stevebunting/rfxp/coordinator/Analyser.java:526-536 | no white-space conflict is ever reported, so the channel counter and the product counters add up to the conflict count |
| XpGeneratorWrapper.CalculateMaxPossible | src/main/java/com/stevebunting/rfxp/coordinator/ChannelGeneratorWrapper.java:19-28 | the count is the number of grid points in the range |
| XpGeneratorWrapper.MaxPossibleExamples | src/test/java/com/stevebunting/rfxp/coordinator/ChannelGeneratorWrapperTests.java:16-58 | the counts the rfxp `ChannelGeneratorWrapperTests` expect for a 25 kHz grid: 161, 160, 1 and 0 |
| XpGeneratorWrapper.NewWrapper | src/main/java/com/stevebunting/rfxp/coordinator/ChannelGeneratorWrapper.java:14-28 | a channel without a range is a null reference; a zero accuracy throws exactly when `hi` is not negative; otherwise no proposal and no candidates yet, with the grid-point count stored for a positive accuracy and a count of at most one for a negative one |
| XpGeneratorWrapper.MaxPossibleAsWritten | src/main/java/com/stevebunting/rfxp/coordinator/ChannelGeneratorWrapper.java:19-28 | for a positive accuracy it is the grid-point count; for zero it throws exactly when `hi` is not negative and is 0 otherwise; for a negative accuracy it is at most one, and below zero once the range spans two steps |
| XpGeneratorWrapper.BaseAsWritten | src/main/java/com/stevebunting/rfxp/coordinator/ChannelGeneratorWrapper.java:44-55 | as written, the base set is `lo`, `lo + acc`, … up to `hi`: on a grid anchored at `lo`, not at zero |
| XpGeneratorWrapper.BaseAsWrittenOnGrid | src/main/java/com/stevebunting/rfxp/coordinator/ChannelGeneratorWrapper.java:44-55 | as written, the base set is on the tuning grid exactly when the range is empty or `lo` is a multiple, and then it is the grid points |
| XpGeneratorWrapper.BaseAsWrittenOffGrid | src/main/java/com/stevebunting/rfxp/coordinator/ChannelGeneratorWrapper.java:44-55 | the range 606001..606026 on a 25 kHz grid gives {606001, 606026}, both off the grid, while the count says 1 |
| XpGeneratorWrapper.BaseFrequencies | src/main/java/com/stevebunting/rfxp/coordinator/ChannelGeneratorWrapper.java:44-60 | the intended base set holds exactly the multiples of the accuracy in the range |
| XpGeneratorWrapper.BaseMatchesCount | src/main/java/com/stevebunting/rfxp/coordinator/ChannelGeneratorWrapper.java:19-28 | the intended base set has exactly the counted number of members, and each one the profile's range admits is a frequency `setFreq` accepts |
| XpGeneratorWrapper.ComponentSpacing | src/main/java/com/stevebunting/rfxp/coordinator/ChannelGeneratorWrapper.java:62-84 | a channel needs the larger of the two profiles' channel spacings; a product needs the candidate profile's clearance for its type |
| XpGeneratorWrapper.RemoveConflictRange | src/main/java/com/stevebunting/rfxp/coordinator/ChannelGeneratorWrapper.java:62-84 | only removes; on candidates inside the range it removes exactly the grid points strictly inside the component's window |
| XpGeneratorWrapper.ChannelWindowIsClash | src/main/java/com/stevebunting/rfxp/coordinator/ChannelGeneratorWrapper.java:62-84 | a grid point lies in a channel's window exactly when a candidate there would clash with that channel in either direction |
| XpGeneratorWrapper.IntermodWindowIsClash | src/main/java/com/stevebunting/rfxp/coordinator/ChannelGeneratorWrapper.java:62-84 | a grid point lies in a product's window exactly when a candidate there would clash with that product |
| XpGeneratorWrapper.ClearIsConflictFree | src/main/java/com/stevebunting/rfxp/coordinator/ChannelGeneratorWrapper.java:62-84 | a grid point clear of every window is one where the candidate clashes with no channel and no product |
| XpGeneratorWrapper.RemoveAll | src/main/java/com/stevebunting/rfxp/coordinator/ChannelGeneratorWrapper.java:30-42 | after every component's pass a candidate survives exactly when it was there and lies in no window |
| XpGeneratorWrapper.GetPossibleFrequencies | src/main/java/com/stevebunting/rfxp/coordinator/ChannelGeneratorWrapper.java:30-42 | a channel without a range is a null reference; otherwise only the candidate set changes, and it lies within the base set as `getBaseFrequencies` builds it, from the range's low end |
| XpGeneratorWrapper.GetPossibleExact | src/main/java/com/stevebunting/rfxp/coordinator/ChannelGeneratorWrapper.java:30-42 | a frequency is a candidate exactly when it is `lo` plus a whole number of steps within the range and no channel or product window covers it; the windows remove grid points only, so every off-grid point of the base set survives |
| XpGeneratorWrapper.GetPossibleConflictFree | src/main/java/com/stevebunting/rfxp/coordinator/ChannelGeneratorWrapper.java:30-42 | in the checks' own terms: a point of the base set survives exactly when it is off the grid or the channel tuned there would clash with no listed channel in either direction and with no product |
| XpGeneratorWrapper.GetPossibleOnGrid | src/main/java/com/stevebunting/rfxp/coordinator/ChannelGeneratorWrapper.java:30-55 | when the range starts on the tuning grid, the candidates are exactly the grid points of the range where the channel would clash with no listed channel and no product |
| XpGeneratorWrapper.SetTestFrequency | src/main/java/com/stevebunting/rfxp/coordinator/ChannelGeneratorWrapper.java:86-93 | no candidate set is a null reference; an empty one is a no-such-element error (an illegal argument under random selection), both leaving the wrapper as it was; otherwise a candidate becomes the proposal, and the proposal stays even when the channel refuses it; on success it leaves the candidates and the channel is retuned to it; without random selection it is the least candidate |
| XpGeneratorWrapper.HasPossibleFrequencies | src/main/java/com/stevebunting/rfxp/coordinator/ChannelGeneratorWrapper.java:95-97 | a missing candidate set is a null reference; otherwise the answer is whether any candidate is left |
| XpGeneratorWrapper.CompareTo | src/main/java/com/stevebunting/rfxp/coordinator/ChannelGeneratorWrapper.java:113-115 | every two wrappers tie |
| XpGenerator.TestChannel | src/main/java/com/stevebunting/rfxp/coordinator/Analyser.java:697 | the test channel exists exactly when the profile accepts the frequency; it is a new object with the default name, that frequency and no conflicts |
| XpGenerator.ScanEmptyIff | src/main/java/com/stevebunting/rfxp/coordinator/Analyser.java:704 | on a frequency-sorted product list the scan reports nothing exactly when no channel clashes with any product |
| XpGenerator.NewConflictsEmptyIff | src/main/java/com/stevebunting/rfxp/coordinator/Analyser.java:702-711 | the test channel is kept exactly when none of its products clashes with a listed channel |
| XpGenerator.Added | src/main/java/com/stevebunting/rfxp/coordinator/Analyser.java:714-716 | the accepted test channel is appended and its products merged in, nothing else changing |
| XpGenerator.RemoveEqual | src/main/java/com/stevebunting/rfxp/coordinator/Analyser.java:727 | `channels.remove(testChannel)` as written takes out the first channel *equal* to it, or nothing |
| XpGenerator.RemoveEqualRestores | src/main/java/com/stevebunting/rfxp/coordinator/Analyser.java:727 | as written, the restore gives back the list exactly when no listed channel equals the test channel |
| XpGenerator.RemoveEqualLosesChannel | src/main/java/com/stevebunting/rfxp/coordinator/Analyser.java:727 | two channels on one profile with the default name and frequency: the restore removes the listed one and keeps the test channel |
| XpGenerator.ZeroSpacingKeepsFrequency | src/main/java/com/stevebunting/rfxp/coordinator/Analyser.java:642-667 | with zero channel spacings, a listed channel's own frequency stays among the candidates |
| XpGenerator.RemoveObject | src/main/java/com/stevebunting/rfxp/coordinator/Analyser.java:727 | the restore by identity: the test channel's record goes and the records before it stay |
| XpGenerator.RemoveObjectRestores | src/main/java/com/stevebunting/rfxp/coordinator/Analyser.java:727-728 | by identity, the restore gives back exactly the list before the test channel was added |
| XpGenerator.ClonePossible | src/main/java/com/stevebunting/rfxp/coordinator/Analyser.java:597-631 | the copy keeps exactly the candidates at least one channel spacing from the chosen frequency that no new product's window covers |
| XpGenerator.NewChannel | src/main/java/com/stevebunting/rfxp/coordinator/Analyser.java:669-738 | `num == 0` succeeds at once; a successful search puts the analyser back; on success `num` frequencies come back, each a candidate, pairwise at least one channel spacing apart, each accepted in turn; on failure none; the only error is an invalid frequency, it cannot occur when the profile accepts every candidate, and it must occur when `num` is not zero, there is at least one candidate and the profile accepts none (with no candidates the search fails without an error) |
| XpGenerator.TryFrequency | src/main/java/com/stevebunting/rfxp/coordinator/Analyser.java:686-736 | one pass for candidate `f`: a frequency the profile rejects is an invalid frequency; on success the last frequency is `f` and the frequencies form an accepted chain |
| XpGenerator.Descend | src/main/java/com/stevebunting/rfxp/coordinator/Analyser.java:711-734 | the accepted test channel is added, the candidates pruned and the search recurses; every frequency found lies at least one channel spacing from `f` |
| XpGenerator.AddNewChannels | src/main/java/com/stevebunting/rfxp/coordinator/Analyser.java:545-582 | as written in its candidate set, with the corrected by-identity restore of the test channel: a profile without a range is a null reference; a range that is empty or starts on the grid always succeeds; a non-empty range none of whose base points is on the grid throws an invalid frequency for any non-zero `num`; on success the analyser is unchanged and `num` or no frequencies come back, each a grid point of the range clear of the listed channels and products, pairwise distinct and at least one channel spacing apart |
| XpGenerator.OffGridRangeRefused | src/main/java/com/stevebunting/rfxp/coordinator/Analyser.java:557-561 | the range 606001..606026 on a 25 kHz grid: the loop puts no grid point, so `addNewChannels` throws for it |
| XpGenerator.AddNewChannelsOnGrid | src/main/java/com/stevebunting/rfxp/coordinator/Analyser.java:545-582 | the same search started from the grid points of the range never throws: with a range it always succeeds, the analyser unchanged, with the frequencies as above |

## Left out

- Frequencies given in MHz as `double` (`mhzToKhz`, `kHzToMHz`, the `setFreq(double)` overloads) are not modelled; every frequency is an integer number of kHz.
- JSON loading (`EquipmentProfiles`, the `@JsonCreator` constructors as JSON), `toString`, `pretty`, `toStringWithMHz`, `formattedFrequency`, the metrics and `printMetrics` are output or I/O and are not modelled.
- `Channel.deepCopy`, `getAssignableRanges`, `setRange`, `getIntermodsArray` and the plain getters are not modelled beyond the fields they read.
- `NewChannelReport` is a plain record the core never builds; it is not part of this model.
- The `rfcoordinator` `Intermod.java` is not part of this model; the older package is modelled with the newer `Intermod`, on the assumption that the older one builds the same products in the same order.
- The older `rfcoordinator` `Range` is a plain holder that nothing in the older engine reads; it is not modelled.
- Java `int` overflow is not modelled: frequencies, counters and products are unbounded integers.
- Text.Fold: folds only the ASCII letters A-Z, where Java's `compareToIgnoreCase` folds every letter through `Character.toUpperCase` and `toLowerCase`; Unicode case tables are not modelled.
- Text.CompareIgnoreCaseZero: "equal up to case" is ASCII case only, so "É" against "é" is non-zero here and 0 in Java. Strings are sequences of Unicode scalar values, so supplementary characters order by code point and not by UTF-16 code unit.
- RcChannel.NameCompare: inherits the ASCII-only folding of `Text.Fold`.
- RcChannel.NameCompareZero: "equal up to case" is ASCII case only, as for `Text.CompareIgnoreCaseZero`.
- XpComparators.NameCompare: inherits the ASCII-only folding of `Text.Fold`.
- XpComparators.NameCompareZero: "equal up to case" is ASCII case only, as for `Text.CompareIgnoreCaseZero`.
- XpGenerator.NewChannel, XpGenerator.TryFrequency, XpGenerator.Descend, XpGenerator.AddNewChannels, XpGenerator.AddNewChannelsOnGrid: use the corrected by-identity restore (see Findings), so the clause that a successful search leaves the analyser unchanged does not hold of the source, whose remove-by-equals can drop a listed twin of the test channel and leave the test channel listed; `XpGenerator.RemoveEqual` is the code as written, and `XpGenerator.RemoveEqualLosesChannel` shows where the two differ.
- Random selection in `setTestFrequency` and `newChannel` is modelled as any candidate (the method takes the choice as given); the random number generator is left out.
- Concurrency and the `SplittableRandom` field are left out.
- Null arguments are modelled only where the code checks for them (`Option` inputs giving `IllegalArgument` or a null reference); unchecked nulls are not modelled.
- A zero tuning accuracy is a division by zero in `isEquipmentUntunable` and `isFrequencyValid`, and those members model it. No rfxp channel ever holds such a profile: the constructor, `setEquipment` and `setFreqAndEquipment` check the frequency first (Channel.java:41, 142), and that check divides by zero or refuses the frequency (`XpChannel.ZeroAccuracyRefused`). `XpGeneratorWrapper.MaxPossibleAsWritten`, `XpGeneratorWrapper.NewWrapper` and `Pruning.FirstValidAny` take any accuracy, zero and negative included.
- XpGeneratorWrapper.* (all but `MaxPossibleAsWritten` and `NewWrapper`), XpGenerator.*, Pruning.* (all but `FirstValidAny`): require a positive tuning accuracy. Zero never reaches them through a channel, as above. A negative accuracy, which `Equipment` and `isFrequencyValid` accept, is left out: the loops of `getBaseFrequencies`, `removeConflictRange` and `addNewChannels` (ChannelGeneratorWrapper.java:50-54, Analyser.java:557-561 and 665-667) then step downwards and never end over unbounded integers; in Java they run until `int` overflow. `addNewChannels` takes its profile directly, so a zero accuracy can reach it: its loops never end on a non-empty range, and the corner of an empty range that no window reaches, which returns no frequencies, is not modelled.
- XpInvariant.RemoveChannelInv, XpInvariant.UpdateChannelInv: require that no other listed channel equals the removed or updated one, because `List.remove` by `equals` would otherwise remove a different object: with an equal twin listed before it, `updateChannel` removes the twin and lists the object twice, and an unlisted object equal to a listed one replaces it. `XpAnalyser.RemoveChannel` and `XpAnalyser.UpdateChannel` model the general case as written.
- The product-type flags are assumed fixed while channels are listed. `getCalculations` hands out the mutable flags, and changing them mid-way leaves the product list stale. RcCoordination.SetCalculateEmpty proves the invariant only for an empty coordination.
- A caller mutating a shared channel object behind an engine's back is modelled only where the engine rereads it (`XpAnalyser.Sync` for `removeChannel` / `updateChannel`).
- Conflicts are compared by value, not by object identity: `removeConflict(c)` on a channel removes the first equal conflict. The engines hold two equal conflicts in one victim's list only in the rfxp case of the Findings on `checkArtifacts`: `checkArtifacts(x)` leaves `ChannelConflict(c, x)` in a listed channel c's list, and a later `addChannel(x)` of the same object records an equal one again. The rfxp `Conflict.java` is not part of this model, so whether Java's `remove` then takes the first of the two or the second is not known; the two choices differ only in the position of the copy left in c's list.
- RcCoordination.UpdateFrequency: modelled as written. `updateChannel(id, frequency)` recomputes the products but does not re-run `analyse`, so `RcCoordination.UpdateFrequencyInv` keeps the invariant but does not claim the conflict list stays exact.
- RcCoordination.UpdateEquipmentInv: does not claim the conflict list stays exact, because `updateChannel(id, equipment)` changes clearances without re-running `analyse`.
- RcCoordination.AddChannel: uses the corrected `AnalyseFull` (see Findings); `RcCoordination.AnalyseAsWritten` is the code as written.
- RcCoordination.AnalyseAsWritten: only soundness is proved. The saved start index of the product loop has the same flaw as the channel loop, but no counterexample is exhibited for it.
- XpAnalyser.CheckArtifacts: modelled as written (see Findings). Its contract states what stays unchanged, not the leaked counters, which `XpArtifacts.CheckArtifactsLeaksCounter` exhibits.
- The old `Analyser.getConflictsChannelAndIM` returns a conflict per product; it is modelled by `Detection.ImConflicts` one product at a time, and its `null` return for no clash is the empty list.

## Findings

| source | as written | input that shows it | evidently intended | confidence | as-written member | corrected member |
|---|---|---|---|---|---|---|
| src/main/java/com/stevebunting/rfcoordinator/Coordination.java:127-150 | `analyse` starts each channel's scan at an index saved from the previous channel's window, so a channel whose spacing is wider than its predecessors' skips earlier channels | A at 500000 kHz (spacing 100), B at 500200 (spacing 10), C at 500250 (spacing 1000): C is 250 kHz from A, inside C's 1000, yet (C, A) is not reported | every channel is checked against every other channel and every product | not executed | RcCoordination.AsWrittenMissesClash | RcCoordination.AnalyseFull |
| src/main/java/com/stevebunting/rfxp/coordinator/Analyser.java:136-156 | `checkArtifacts` dry run: the channel-spacing pass records conflicts on the listed channels, and only the candidate's own conflicts are un-counted | a listed channel closer to the candidate than its own channel spacing: its list and the channel counter keep a conflict that is not in the engine's list | a dry run that counts the conflicts `addChannel` would add and changes nothing | not executed | XpArtifacts.CheckArtifactsLeaksCounter | XpArtifacts.ArtifactCountMatchesAdd |
| src/main/java/com/stevebunting/rfxp/coordinator/ChannelGeneratorWrapper.java:44-55 | `getBaseFrequencies` steps from the range's low end, not from the first grid point | range 606001..606026 on a 25 kHz grid: the base set is {606001, 606026}, both off the grid, while `calculateMaxPossibleFrequencies` says 1 | the base set holds the grid points of the range, as many as counted | not executed | XpGeneratorWrapper.BaseAsWrittenOffGrid | XpGeneratorWrapper.BaseMatchesCount |
| src/main/java/com/stevebunting/rfxp/coordinator/Analyser.java:727 | `newChannel` restores the channel list with `channels.remove(testChannel)`, which removes the first channel *equal* to the test channel | with zero channel spacing, a listed channel on the same profile with the default name at the chosen frequency: the listed channel is removed and the test channel stays | the test channel itself is taken out again, by identity | not executed | XpGenerator.RemoveEqualLosesChannel | XpGenerator.RemoveObjectRestores |
| src/main/java/com/stevebunting/rfxp/coordinator/Analyser.java:557-561 | `addNewChannels` fills the candidates from the range's low end in steps of the accuracy, and the window removal takes out grid points only | range 606001..606026 at 25 kHz, no channels, `num` 1: the candidates are 606001 and 606026, and the test channel built at either is refused, so `InvalidFrequencyException` leaves `addNewChannels` | candidates are the grid points of the range, so a free grid point such as 606025 is found | not executed | XpGenerator.OffGridRangeRefused | XpGenerator.AddNewChannelsOnGrid |
