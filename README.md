# OncoVisionX data and training core in Dafny

This project models the data and training core of OncoVisionX and proves
properties of that model. OncoVisionX trains image classifiers for skin
lesions and for gliomas.

The skin-lesion pipeline (`ml_core`) has seven stages:

- **Data merger.** Merges the HAM10000 and ISIC 2019 metadata into one master table:
  - each ISIC one-hot row gets a `dx` label;
  - ISIC rows whose image id also appears in HAM10000 are dropped;
  - the merge statistics are computed.
- **Data splitter.** Splits the master table into train, validation and test tables:
  - the ratios are validated first;
  - the split is stratified by `dx`;
  - the stratification is then checked per class.
- **Data loaders.** Computes per-class loss weights by inverse frequency or by
  effective number, builds the per-row weights of the weighted sampler, and
  fixes the loader settings.
- **Skin-lesion dataset.** Builds image paths from the row's source and maps a
  diagnosis to its class index. An image that cannot be loaded is replaced by a
  blank image.
- **Metrics.** Accuracy; per-class precision, recall and F1 from the
  classification report; melanoma sensitivity; the AUC fallback.
- **Trainer.**
  - the early-stopping state machine;
  - one training epoch;
  - the epoch loop, with its history, best-model tracking and checkpoint writes.
- **Configuration.** Loads YAML into a configuration object, does dotted
  lookup, converts back to a dictionary, and validates the paths.

The glioma pipeline (`ml/NeuroFusion`) has two datasets:

- **The first dataset** encodes gender and grade, min-max scales the numeric
  columns, and builds items from CSV rows.
- **The advanced dataset** sanitises the table and splits patients rather than
  slices. Each patient expands into the slices with the largest tumour-mask
  area. The numeric features are scaled and the survival is normalised.

There is one module per source file:

| module | file |
|---|---|
| `DataMerger` | data_merger.dfy |
| `DataSplitter` | data_splitter.dfy |
| `DataLoaders` | dataloader.dfy |
| `SkinLesion` | skin_lesion_dataset.dfy |
| `Metrics` | metrics.dfy |
| `Training` | trainer.dfy |
| `Configuration` | config.dfy |
| `Glioma` | glioma_dataset.dfy |
| `GliomaAdvanced` | glioma_advanced.dfy |

Shared helper modules:

- `Wrappers`: `Option` and `Result`.
- `Strings`: ASCII case, `replace`, `split`/`join`.
- `Counting`: `value_counts`, distinct values.
- `Dicts`: ordered dictionary items, lookup, inversion.
- `Tables`: frames of cells, column rewriting, `MinMaxScaler`.
- `Images`: the blank fallback image.

Only the following are modelled as state changed in place; every other
object the source mutates (a DataFrame column, a `Config` attribute) is
modelled as a value that the operation returns:

- `EarlyStopping` and `Trainer` are classes.
- `GliomaDataset` and `GliomaAdvancedDataset` are classes.
- The loops of the source are methods proved against the functions that
  specify them:
  - `compute_class_weights` fills an array;
  - the training loop over batches;
  - the epoch loop;
  - the sanitisation and slice-expansion loops;
  - the path validation loops.

Library calls and everything outside the process become parameters:

- `train_test_split`, `classification_report`, `roc_auc_score` and the
  learning-rate scheduler;
- the file system, `cv2.imread` and `float()` of a string.

Each parameter is either a function or a value of the input. Anything assumed
about it is a stated precondition, for example that a split is a partition.

## Model

| member | source | states |
|---|---|---|
| DataMerger.FirstMax | ml_core/src/preprocessing/data_merger.py:99 | `idxmax` picks a position holding the row maximum, and no earlier position holds it |
| DataMerger.HarmonizeIsicLabels | ml_core/src/preprocessing/data_merger.py:91-102 | fails exactly when an indicator column is missing, naming the set of missing columns; otherwise one label per row, each one of the eight canonical spellings, and row i's label is `HarmonizedLabel` of row i |
| DataMerger.HarmonizedLabelCanonical | ml_core/src/preprocessing/data_merger.py:99-102 | every harmonised label is canonical and `ak` never survives |
| DataMerger.OneHotLabel | ml_core/src/preprocessing/data_merger.py:99-102 | a one-hot row is labelled with its set column, lower-cased, with ak renamed |
| DataMerger.AllZeroRowIsMel | ml_core/src/preprocessing/data_merger.py:99 | an all-zero row is not rejected: it is labelled `mel` |
| DataMerger.RenameOnlyAk | ml_core/src/preprocessing/data_merger.py:102 | renaming changes only `ak`, and yields `akiec` exactly for `ak` and `akiec` |
| DataMerger.KeepNotInMembers | ml_core/src/preprocessing/data_merger.py:134-137 | a row survives de-duplication iff it is an input row whose id is not a HAM id |
| DataMerger.DuplicatesRemoved | ml_core/src/preprocessing/data_merger.py:139 | the logged count is the number of ISIC rows whose id is a HAM id |
| DataMerger.DedupPartition | ml_core/src/preprocessing/data_merger.py:131-139 | the ISIC rows are exactly the kept rows plus the duplicates, so the logged count is the number of rows with a HAM id |
| DataMerger.KeepNotInConcat | ml_core/src/preprocessing/data_merger.py:137 | filtering commutes with concatenation (relative order kept) |
| DataMerger.KeepNotInIdempotent | ml_core/src/preprocessing/data_merger.py:137 | removing duplicates twice removes nothing more |
| DataMerger.KeepNotInNoDup | ml_core/src/preprocessing/data_merger.py:137 | filtering keeps ids unique |
| DataMerger.TagHam | ml_core/src/preprocessing/data_merger.py:171-172 | each HAM row keeps its id and dx and gets source `ham10000` |
| DataMerger.TagIsic | ml_core/src/preprocessing/data_merger.py:193-195 | each ISIC row gets its harmonised dx and source `isic2019` |
| DataMerger.Distribution | ml_core/src/preprocessing/data_merger.py:216-217 | `value_counts().to_dict()` has exactly the values present, each with its positive count |
| DataMerger.MergeErrors | ml_core/src/preprocessing/data_merger.py:165-201 | missing raw directory, HAM file, HAM `image_id`/`dx` columns (a KeyError naming the missing ones) and ISIC file abort in that order before anything is merged; then the label-column error is passed on; then, only after harmonisation succeeds, a missing ISIC `image_id` column (neither `image` nor `image_id`) raises KeyError |
| DataMerger.MasterIs | ml_core/src/preprocessing/data_merger.py:207 | a successful merge had both key columns in each file, and the master table is the tagged HAM rows followed by the kept ISIC rows |
| DataMerger.MergeHamPrefix | ml_core/src/preprocessing/data_merger.py:207 | the master table starts with every HAM row, labels unchanged, tagged ham10000 |
| DataMerger.MergeIsicSuffix | ml_core/src/preprocessing/data_merger.py:193-207 | every row after the HAM rows is an ISIC row with a canonical label and an id not among the HAM ids, and every ISIC row whose id is not a HAM id is there with its harmonised label |
| DataMerger.MergeStatsConsistent | ml_core/src/preprocessing/data_merger.py:212-218 | total = HAM count + ISIC count = number of rows, and the class counts sum to the total |
| DataMerger.MergedIdsUnique | ml_core/src/preprocessing/data_merger.py:134-207 | unique ids in each source give unique ids in the master table |
| DataSplitter.NewSplitter | ml_core/src/preprocessing/data_splitter.py:79-93 | succeeds iff the ratios are `isclose` to 1 and the metadata exists; the ratio error comes first and carries the sum |
| DataSplitter.RatioCheckExamples | ml_core/src/preprocessing/data_splitter.py:80 | the default 70/15/15 passes, a sum off by 1e-5 passes, off by 2e-5 fails, negative ratios are not rejected |
| DataSplitter.SplitStages | ml_core/src/preprocessing/data_splitter.py:136-159 | the first stage holds out val+test, the second halves the held-out rows with the same seed, and either failing fails the split |
| DataSplitter.SplitDependsOnHoldoutAndSeed | ml_core/src/preprocessing/data_splitter.py:136-154 | the three tables depend only on val+test and the seed, not on the train ratio or on how val and test divide the held-out fraction |
| DataSplitter.SplitIsPartition | ml_core/src/preprocessing/data_splitter.py:138-159 | with a partitioning library, train+val+test is the loaded table as a multiset |
| DataSplitter.SplitDisjoint | ml_core/src/preprocessing/data_splitter.py:138-159 | a table without repeated rows splits into three pairwise disjoint tables that together hold its rows |
| DataSplitter.RoundHalfEven | ml_core/src/preprocessing/data_splitter.py:186 | numpy rounding is within 0.5 and exact on integers |
| DataSplitter.Round2 | ml_core/src/preprocessing/data_splitter.py:186 | `round(2)` is within 0.005 |
| DataSplitter.Round2Bounds | ml_core/src/preprocessing/data_splitter.py:186 | rounding keeps a percentage within [0, 100] |
| DataSplitter.Percent | ml_core/src/preprocessing/data_splitter.py:183-187 | a class has a percentage in a split iff it occurs there (NaN otherwise) |
| DataSplitter.PercentBounds | ml_core/src/preprocessing/data_splitter.py:183-187 | every percentage lies in [0, 100] |
| DataSplitter.MaxPresent | ml_core/src/preprocessing/data_splitter.py:202 | row max skips NaN, is NaN only when all cells are, and is an upper bound reached by some cell |
| DataSplitter.MinPresent | ml_core/src/preprocessing/data_splitter.py:203 | row min skips NaN, is NaN only when all cells are, and is a lower bound reached by some cell |
| DataSplitter.Deviation | ml_core/src/preprocessing/data_splitter.py:202-203 | max minus min is NaN only for all-NaN, non-negative, bounds every pairwise difference, and is itself the difference of two present percentages |
| DataSplitter.RowsCoverClasses | ml_core/src/preprocessing/data_splitter.py:190-201 | the comparison table has a row for exactly the classes present in some split, each once |
| DataSplitter.RowsBounded | ml_core/src/preprocessing/data_splitter.py:183-203 | every row of the comparison table has a deviation in [0, 100] |
| DataSplitter.VerdictOf | ml_core/src/preprocessing/data_splitter.py:212-217 | excellent iff below 2, good iff in [2, 5), suboptimal iff at least 5 or NaN |
| DataSplitter.ComparisonRows | ml_core/src/preprocessing/data_splitter.py:190-203 | one row per distinct class of the three splits, each with its percentages, counts and deviation; a count is NaN exactly when the class is absent from that split, its percentage is NaN exactly then, and a present count is the class's number of rows |
| DataSplitter.CountCell | ml_core/src/preprocessing/data_splitter.py:197-199 | the count cell after the outer join: NaN exactly when the class is absent, otherwise its positive count |
| DataSplitter.ClassRowDeviation | ml_core/src/preprocessing/data_splitter.py:202-203 | a class present in some split has a deviation in [0, 100] |
| DataSplitter.VerificationRows | ml_core/src/preprocessing/data_splitter.py:190-209 | the table has a row for exactly the classes present, each once, every deviation in [0, 100] |
| DataSplitter.OverallNaNOnlyWhenEmpty | ml_core/src/preprocessing/data_splitter.py:209-217 | the overall maximum is NaN iff all three splits are empty, and then the verdict is the warning |
| DataSplitter.ProportionalClassRow | ml_core/src/preprocessing/data_splitter.py:183-203 | a class held in the same proportion by all splits has deviation 0 |
| DataSplitter.SameShareSamePercent | ml_core/src/preprocessing/data_splitter.py:183-187 | equal proportions give equal rounded percentages |
| DataSplitter.ProportionalSplitsExcellent | ml_core/src/preprocessing/data_splitter.py:201-213 | splits holding every class in the same proportion have maximum deviation 0 and are excellent |
| DataLoaders.ClassWeight | ml_core/src/datasets/dataloader.py:69-87 | an empty class weighs 1.0 under any method; an unknown method fails exactly on a non-empty class, with the ValueError naming it |
| DataLoaders.Slot | ml_core/src/datasets/dataloader.py:73-84 | `weights[idx]` writes position idx, or idx+n for a negative idx, and fails outside [-n, n) |
| DataLoaders.ComputeClassWeights | ml_core/src/datasets/dataloader.py:59-99 | the array loop computes the specified weight vector |
| DataLoaders.WeightsFromPlaces | ml_core/src/datasets/dataloader.py:68-87 | with valid distinct indices, each class's weight lands at its index and other slots are untouched |
| DataLoaders.ClassWeightsPerClass | ml_core/src/datasets/dataloader.py:59-99 | one weight per class, each being that class's weight under the method |
| DataLoaders.UnknownMethodFails | ml_core/src/datasets/dataloader.py:68-87 | an unknown method fails iff some class has training rows, with the ValueError naming the method |
| DataLoaders.BalancedInverseWeightsOne | ml_core/src/datasets/dataloader.py:77 | perfectly balanced data gets weight 1.0 for every class under inverse frequency |
| DataLoaders.InverseRarerWeighsMore | ml_core/src/datasets/dataloader.py:77 | under inverse frequency a rarer class weighs strictly more |
| DataLoaders.PowBeta | ml_core/src/datasets/dataloader.py:82-83 | beta^k lies in (0, 1] and strictly decreases with k |
| DataLoaders.EffectiveNumberBounds | ml_core/src/datasets/dataloader.py:82-84 | under the effective number a class weighs in (0, 1] and no more than any rarer class |
| DataLoaders.CreateWeightedSampler | ml_core/src/datasets/dataloader.py:127-150 | each row's weight is 1 / size of its class; one draw per row, with replacement |
| DataLoaders.SampleWeightsBalanceClasses | ml_core/src/datasets/dataloader.py:110-137 | every class present carries total sampling weight exactly 1, so classes are drawn equally often in expectation |
| DataLoaders.CreateDataloader | ml_core/src/datasets/dataloader.py:188-202 | a sampler disables shuffling; prefetching and persistent workers iff workers > 0; the last batch is kept |
| DataLoaders.LoadersFromConfig | ml_core/src/datasets/dataloader.py:262-287 | the training loader shuffles iff no sampler; the sampler draws one weight per training row with replacement; val and test never shuffle or sample |
| SkinLesion.DirectoryWarnings | ml_core/src/datasets/skin_lesion_dataset.py:128-134 | one warning per missing image directory, HAM first |
| SkinLesion.NewDatasetErrors | ml_core/src/datasets/skin_lesion_dataset.py:86-115 | construction fails only for a missing CSV, then a missing class mapping; missing directories only warn |
| SkinLesion.IdxToClassRoundTrip | ml_core/src/datasets/skin_lesion_dataset.py:110-112 | `idx_to_class` inverts `class_to_idx` both ways and has one entry per class |
| SkinLesion.ImagePath | ml_core/src/datasets/skin_lesion_dataset.py:151-161 | fails exactly for an unknown source, with the ValueError naming it |
| SkinLesion.ImagePathShape | ml_core/src/datasets/skin_lesion_dataset.py:151-158 | for an id without `/`, the path is the source's directory, `/`, the image id and `.jpg` |
| SkinLesion.ImagePathInjective | ml_core/src/datasets/skin_lesion_dataset.py:151-158 | two ids without `/` of one source never share a path |
| SkinLesion.Length | ml_core/src/datasets/skin_lesion_dataset.py:191-193 | the number of rows |
| SkinLesion.RowAt | ml_core/src/datasets/skin_lesion_dataset.py:212 | `iloc` succeeds iff the index is in [-n, n), counting negatives from the end |
| SkinLesion.GetItemSpec | ml_core/src/datasets/skin_lesion_dataset.py:212-239 | an item fails only for an unknown source or label, never because of the image; its label is the class index; the image is the loaded or the blank one |
| SkinLesion.GetItemLabel | ml_core/src/datasets/skin_lesion_dataset.py:237 | the label is the mapping's index of the row's diagnosis |
| Images.ZeroImage | ml_core/src/datasets/skin_lesion_dataset.py:226 | the fallback is a 224 x 224 x 3 image of zeros |
| Metrics.FirstIndex | ml_core/src/training/metrics.py:41 | `list.index` finds the first position of the value |
| Metrics.MelanomaIndex | ml_core/src/training/metrics.py:41 | the first position of `mel`, or 4 when absent |
| Metrics.DefaultMelanomaIndex | ml_core/src/training/metrics.py:23-24 | the default class list puts `mel` at the default index 4 |
| Metrics.Accuracy | ml_core/src/training/metrics.py:65 | NaN iff no labels; otherwise in [0, 1] and equal to matches / count |
| Metrics.PerfectAccuracy | ml_core/src/training/metrics.py:65 | predictions equal to the labels give accuracy 1 |
| Metrics.TruePositives | ml_core/src/training/metrics.py:71-76 | true positives are at most the predicted and the actual counts |
| Metrics.ScoresFromBounds | ml_core/src/training/metrics.py:71-76 | with true positives bounded by the predicted and actual counts, precision, recall and F1 lie in [0, 1] |
| Metrics.ScoresBounds | ml_core/src/training/metrics.py:71-76 | precision, recall and F1 lie in [0, 1] (zero_division=0) and support is the class count |
| Metrics.F1IsHarmonicMean | ml_core/src/training/metrics.py:71-76 | F1 is the harmonic mean of precision and recall, and 0 when both are 0 |
| Metrics.PerfectScores | ml_core/src/training/metrics.py:71-76 | perfect predictions score 1 on every present class |
| Metrics.MelBinaryLabels | ml_core/src/training/metrics.py:96 | 1 exactly where the label is the melanoma index |
| Metrics.MelBinaryCount | ml_core/src/training/metrics.py:96 | the binary labels hold as many ones as there are melanoma labels, zeros for the rest |
| Metrics.PerClassF1Keys | ml_core/src/training/metrics.py:79-81 | `f1_<cls>` is present iff the class is listed and in the report, and every entry is such a class's F1 |
| Metrics.PerClassF1Listed | ml_core/src/training/metrics.py:79-81 | every listed class in the report gets its `f1_` entry |
| Metrics.F1KeyInjective | ml_core/src/training/metrics.py:81 | distinct classes get distinct `f1_` keys |
| Metrics.Compute | ml_core/src/training/metrics.py:62-87 | fails exactly when the number of distinct labels and predictions differs from the number of class names, as `classification_report` with `target_names` raises |
| Metrics.AbsentClassFails | ml_core/src/training/metrics.py:71-76 | labels and predictions covering 2 classes against the 8 class names make `compute` fail |
| Metrics.MelDefaults | ml_core/src/training/metrics.py:84-87 | without a `mel` row the three melanoma metrics are 0.0 and the safety alert fires |
| Metrics.MelSensitivityIsRecall | ml_core/src/training/metrics.py:84-85 | melanoma sensitivity is the recall of the melanoma class, lies in [0, 1], and the safety alert fires iff it is below the threshold, always when there are no melanoma labels |
| Metrics.AucFallback | ml_core/src/training/metrics.py:90-102 | both AUCs are 0.0 when either call fails or the melanoma column does not exist; otherwise the two results |
| Metrics.ComputeFields | ml_core/src/training/metrics.py:62-87 | when it succeeds, `compute` reports the accuracy, the given balanced accuracy, the report's macro and weighted F1, and for each listed class in the report its F1, which lies in [0, 1] |
| Training.EsStepSpec | ml_core/src/training/trainer.py:34-52 | the first call records and returns False; an improvement beyond min_delta resets the counter; otherwise the counter grows and stops at patience; the flag returned is the stop flag |
| Training.EsRun | ml_core/src/training/trainer.py:34-52 | one returned flag per call |
| Training.EsStopSticky | ml_core/src/training/trainer.py:44-52 | once a call returns True every later call does, even after an improvement |
| Training.EsFirstCall | ml_core/src/training/trainer.py:35-37 | the first call only records the value |
| Training.EsPlateauExample | ml_core/src/training/trainer.py:39-52 | four equal values with patience 3 stop on the fourth call |
| Training.EarlyStopping.constructor | ml_core/src/training/trainer.py:26-32 | configuration as given; counter 0, no best value, not stopped |
| Training.EarlyStopping.Call | ml_core/src/training/trainer.py:34-52 | the fields change as one state-machine step and the returned flag is its flag |
| Training.Trace | ml_core/src/training/trainer.py:164-183 | seven calls per batch |
| Training.TrainOneEpoch | ml_core/src/training/trainer.py:150-200 | the running sums give the loss and accuracy averages, or the ZeroDivisionError of an empty loader or of an empty first batch; the calls made are the batch trace |
| Training.CorrectAtMostTotal | ml_core/src/training/trainer.py:186-189 | the correct count never exceeds the total |
| Training.EpochAccuracyBounds | ml_core/src/training/trainer.py:198-200 | the epoch accuracy lies in [0, 1] |
| Training.TotalPositive | ml_core/src/training/trainer.py:189-193 | a non-empty first batch makes the total positive |
| Training.TraceAt | ml_core/src/training/trainer.py:164-183 | call i of the trace is call i mod 7 of one batch |
| Training.TraceOrder | ml_core/src/training/trainer.py:168-183 | every batch starts by zeroing gradients; gradients are unscaled right before clipping and the optimizer steps right after |
| Training.PathsDiffer | ml_core/src/training/trainer.py:254-259 | the latest and best checkpoint files differ |
| Training.Accs | ml_core/src/training/trainer.py:333 | the balanced accuracies of the first e epochs, in order |
| Training.MaxFromZero | ml_core/src/training/trainer.py:141 | the running best starts at 0.0 and bounds every value |
| Training.BestFlags | ml_core/src/training/trainer.py:338 | one new-best flag per epoch |
| Training.HistoryStep | ml_core/src/training/trainer.py:330-335 | each epoch appends its six entries to the history, the learning rate being the one read before the scheduler step |
| Training.BestStep | ml_core/src/training/trainer.py:338-340 | the running best moves to the epoch's value exactly when it is a new best |
| Training.StateStep | ml_core/src/training/trainer.py:326-358 | the state after e+1 epochs is one loop body applied to the state after e |
| Training.EsOfStep | ml_core/src/training/trainer.py:357 | the early-stopping state after e+1 epochs is one step on epoch e's balanced accuracy |
| Training.SavesOfStep | ml_core/src/training/trainer.py:338-342 | epoch e adds its checkpoint writes, the best file iff it is a new best |
| Training.Trainer.constructor | ml_core/src/training/trainer.py:124-141 | empty history, best 0.0, no checkpoints, fresh early stopping with the configured patience |
| Training.Trainer.RunEpoch | ml_core/src/training/trainer.py:326-360 | one loop body: history appends, best update, checkpoint writes, and the early-stopping call whose flag is returned |
| Training.Trainer.Train | ml_core/src/training/trainer.py:306-368 | the final state is the state after the number of epochs the loop runs, and the result is the history |
| Training.EpochsRunBounds | ml_core/src/training/trainer.py:316-360 | at most num_epochs epochs; leaving early happens only right after the epoch where early stopping fired, and it fired in no earlier epoch |
| Training.IsBestAtSpec | ml_core/src/training/trainer.py:338-340 | an epoch is a new best iff it beats 0.0 and every earlier epoch strictly |
| Training.BestFlagsExample | ml_core/src/training/trainer.py:338 | 0.60, 0.65, 0.65, 0.70 give new bests in epochs 0, 1 and 3 but not 2 |
| Training.SavesFromSpec | ml_core/src/training/trainer.py:241-260 | checkpoint writes for given new-best flags: latest always, best iff flagged, nothing else |
| Training.SavesAfter | ml_core/src/training/trainer.py:241-260 | every epoch writes the latest file; an epoch writes the best file iff it is a new best; nothing else is written |
| Training.BestCheckpointHoldsBest | ml_core/src/training/trainer.py:338-342 | when the best balanced accuracy has left 0.0, a new-best epoch with that value wrote the best file |
| Training.StopsAtIsEsRun | ml_core/src/training/trainer.py:357-358 | whether the loop stops in an epoch is the flag the early-stopping call sequence returns there |
| Configuration.SetAttr | ml_core/src/utils/config.py:45-47 | `setattr` appends a new name at the end and keeps the attribute count for an existing one |
| Configuration.NewConfig | ml_core/src/utils/config.py:36-47 | the constructor loop builds the object the item-by-item `setattr` specifies |
| Configuration.AttrsFromAppends | ml_core/src/utils/config.py:43-47 | with distinct keys each item becomes one attribute in order, mappings nested |
| Configuration.KeysOf | ml_core/src/utils/config.py:43-47 | distinct keys give distinct attribute names |
| Configuration.RoundTrip | ml_core/src/utils/config.py:147-160 | `to_dict` of the object built from a well-formed mapping without a `to_dict` key is that mapping |
| Configuration.ItemsRoundTrip | ml_core/src/utils/config.py:154-160 | every prefix of the attributes converts back to the same prefix of the mapping |
| Configuration.GetValue | ml_core/src/utils/config.py:79-102 | the lookup loop returns the value at the dotted key, or the default |
| Configuration.GetConverted | ml_core/src/utils/config.py:43-47 | a key of the mapping is an attribute holding the converted value |
| Configuration.LookupFollowsDict | ml_core/src/utils/config.py:94-102 | dotted lookup fails exactly where the mapping walk fails and otherwise finds the converted value |
| Configuration.GetDotted | ml_core/src/utils/config.py:79-102 | `get("a.b.c")` gives the converted value at a, b, c, or the default |
| Configuration.PathAttrsSpec | ml_core/src/utils/config.py:120-138 | the attribute lookups succeed iff each does, in order; otherwise the first failure is the error |
| Configuration.FileCheckSpec | ml_core/src/utils/config.py:126-132 | the file check passes iff every file exists; a failure is the first missing or unjoinable file |
| Configuration.DirCheckSpec | ml_core/src/utils/config.py:140-143 | warnings are exactly the missing directories; only an unjoinable value fails |
| Configuration.CheckFiles | ml_core/src/utils/config.py:126-132 | the loop over critical files returns what the file check specifies |
| Configuration.CollectWarnings | ml_core/src/utils/config.py:140-143 | the loop over image directories returns the specified warnings |
| Configuration.ValidatePaths | ml_core/src/utils/config.py:104-145 | `validate_paths` returns the specified validation result |
| Configuration.ValidationSpec | ml_core/src/utils/config.py:104-145 | passes only when all three critical files exist; a missing file is reported only after the earlier ones were found; a pass warns about exactly the missing directories |
| Configuration.AssignAt | ml_core/src/utils/config.py:187 | assigning an existing attribute replaces it in place and changes nothing else |
| Configuration.NestedAt | ml_core/src/utils/config.py:43-47 | a nested mapping becomes a nested object at the same position |
| Configuration.LoadNormalisesClassMapping | ml_core/src/utils/config.py:167-189 | `load_config` turns `dataset.class_to_idx` back into the mapping of the file and changes no other attribute |
| Configuration.SetAttrAt | ml_core/src/utils/config.py:45-47 | `setattr` on an existing name replaces that attribute where it stands |
| Glioma.PreprocessedSpec | ml/NeuroFusion/dataset.py:20-36 | gender is 1 exactly for Male or Unknown; grade is 1 exactly for G3 or GBM; scaled columns are NaN or in [0, 1]; other columns are untouched |
| Glioma.Load | ml/NeuroFusion/dataset.py:15-36 | construction reads and preprocesses at once: the new dataset holds exactly the preprocessed frame and satisfies the encoding invariant, or the preprocessing error is raised |
| Glioma.GliomaDataset.constructor | ml/NeuroFusion/dataset.py:15 | the frame as read |
| Glioma.GliomaDataset.Preprocess | ml/NeuroFusion/dataset.py:20-36 | the in-place rewrites leave the preprocessed frame, or the KeyError or ValueError, and establish the encoding invariant |
| Glioma.GliomaDataset.Length | ml/NeuroFusion/dataset.py:40-41 | the number of rows |
| Glioma.GetItemSpec | ml/NeuroFusion/dataset.py:43-77 | the 7 features in order age, gender, genes, each in [0, 1] or NaN; grade 0 or 1 as encoded; blank image on a failed read; errors exactly for a missing or non-string path or survival column, or an unparsable survival |
| Tables.Column | ml/NeuroFusion/dataset.py:36 | a column's cells, top to bottom |
| Tables.MapColumn | ml/NeuroFusion/dataset.py:22-28 | rewriting a column changes only that column's cells |
| Tables.NumsOf | ml/NeuroFusion/dataset.py:36 | the numbers of a column, skipping NaN |
| Tables.ScaleBounds | ml/NeuroFusion/dataset.py:36 | min-max lands in [0, 1], the minimum on 0 and a non-constant maximum on 1 |
| Tables.ScaleMonotone | ml/NeuroFusion/dataset.py:36 | min-max keeps the order of values |
| Tables.ScaleCells | ml/NeuroFusion/dataset.py:36 | scaling fails exactly when a string is present |
| Tables.ScaleCellsSpec | ml/NeuroFusion/dataset.py:36 | NaN stays NaN, numbers land in [0, 1], order is kept |
| Tables.ScaleColumns | ml/NeuroFusion/improved_dataset.py:67 | the scaled frame keeps its columns and rows |
| Tables.ScaleEachSpec | ml/NeuroFusion/improved_dataset.py:67 | the unselected columns are untouched; selected ones keep NaN and land in [0, 1] |
| GliomaAdvanced.WipeFrame | ml/NeuroFusion/improved_dataset.py:27 | every `Unknown` cell becomes NaN, nothing else changes |
| GliomaAdvanced.FillFrame | ml/NeuroFusion/improved_dataset.py:42 | NaN in the selected columns becomes 0 |
| GliomaAdvanced.Sanitise | ml/NeuroFusion/improved_dataset.py:25-42 | the step-by-step rewrites give the sanitised frame |
| GliomaAdvanced.GenderStage | ml/NeuroFusion/improved_dataset.py:27-32 | wiping `Unknown` and encoding gender is the first stage of the sanitisation |
| GliomaAdvanced.CoerceStage | ml/NeuroFusion/improved_dataset.py:37-39 | each coerced column extends the sanitisation by one column |
| GliomaAdvanced.FilledStages | ml/NeuroFusion/improved_dataset.py:42 | once all numeric columns are coerced, filling gives the sanitised frame |
| GliomaAdvanced.SanitisedSpec | ml/NeuroFusion/improved_dataset.py:25-42 | fails iff a numeric column is missing; otherwise every numeric cell is a number, gender is 0 for Male, 1 for Female, 0 otherwise; other cells only lose `Unknown` |
| GliomaAdvanced.Unique | ml/NeuroFusion/improved_dataset.py:46 | each patient id once |
| GliomaAdvanced.RowsOf | ml/NeuroFusion/improved_dataset.py:50 | the rows of the target patients, in order |
| GliomaAdvanced.PatientData | ml/NeuroFusion/improved_dataset.py:45-50 | the selection keeps columns and only input rows |
| GliomaAdvanced.NoPatientLeakage | ml/NeuroFusion/improved_dataset.py:45-50 | with a split whose sides share no patient, no patient has rows in both the training and the validation selection; with sides covering every patient, every row lands in one of them |
| GliomaAdvanced.FirstWithPrefix | ml/NeuroFusion/improved_dataset.py:86-89 | the first listed entry with the prefix, or none |
| GliomaAdvanced.FindPatientFolder | ml/NeuroFusion/improved_dataset.py:81-91 | the folder-search loop returns the specified folder |
| GliomaAdvanced.CollectCandidates | ml/NeuroFusion/improved_dataset.py:94-105 | the mask-scan loop returns the specified candidates |
| GliomaAdvanced.CandidatesSpec | ml/NeuroFusion/improved_dataset.py:94-105 | every candidate is a readable mask of positive area naming its image, and every such mask gives one |
| GliomaAdvanced.InsertSpec | ml/NeuroFusion/improved_dataset.py:108 | inserting keeps the list descending and adds exactly the element |
| GliomaAdvanced.SortDescSpec | ml/NeuroFusion/improved_dataset.py:108 | the sort is descending by area and a permutation |
| GliomaAdvanced.TakePy | ml/NeuroFusion/improved_dataset.py:109 | `s[:n]` with Python's meaning of negative and oversized bounds |
| GliomaAdvanced.SortDescStable | ml/NeuroFusion/improved_dataset.py:108 | the sort is stable: the candidates of each area keep their scan order |
| GliomaAdvanced.TopSlicesKeepScanOrder | ml/NeuroFusion/improved_dataset.py:108-109 | of the candidates of any area, the top slices hold a prefix in scan order |
| GliomaAdvanced.TopSlicesSpec | ml/NeuroFusion/improved_dataset.py:108-109 | for n >= 0, min(n, count) candidates; they are in descending order, and none left out has a larger area than one taken |
| GliomaAdvanced.PrefixDominates | ml/NeuroFusion/improved_dataset.py:109 | a prefix of a descending list dominates the rest |
| GliomaAdvanced.TabularOf | ml/NeuroFusion/improved_dataset.py:116 | one feature per numeric column |
| GliomaAdvanced.RowSamplesSpec | ml/NeuroFusion/improved_dataset.py:112-119 | one sample per top slice in order, with the row's features and survival; grade 1 iff the upper-cased grade is high; no folder gives no samples |
| GliomaAdvanced.ExpandedFrom | ml/NeuroFusion/improved_dataset.py:78-119 | every sample carries the features of some row |
| GliomaAdvanced.ExpandedContains | ml/NeuroFusion/improved_dataset.py:78-119 | every sample of every row is among the expanded samples |
| GliomaAdvanced.ErrorPersists | ml/NeuroFusion/improved_dataset.py:78-119 | the first failing row aborts the expansion with its error |
| GliomaAdvanced.ExpandedStep | ml/NeuroFusion/improved_dataset.py:78-119 | one more row appends its samples |
| GliomaAdvanced.ExpandRows | ml/NeuroFusion/improved_dataset.py:78-119 | the row loop returns the specified samples |
| GliomaAdvanced.ExpandRow | ml/NeuroFusion/improved_dataset.py:79-119 | one row's body returns that row's samples |
| GliomaAdvanced.BuildSlices | ml/NeuroFusion/improved_dataset.py:112-119 | the slice loop appends one sample per top slice |
| GliomaAdvanced.GliomaAdvancedDataset.constructor | ml/NeuroFusion/improved_dataset.py:18-53 | mode, slice count, folder and the selected patients; no samples |
| GliomaAdvanced.GliomaAdvancedDataset.ExpandSlices | ml/NeuroFusion/improved_dataset.py:74-119 | the samples of every row are appended in order; the patient data is unchanged |
| GliomaAdvanced.GliomaAdvancedDataset.ScaleFeatures | ml/NeuroFusion/improved_dataset.py:57-67 | the patient data becomes the scaled frame or the scaling error; samples are unchanged |
| GliomaAdvanced.GliomaAdvancedDataset.Length | ml/NeuroFusion/improved_dataset.py:121-122 | the number of samples |
| GliomaAdvanced.PatientDataClean | ml/NeuroFusion/improved_dataset.py:50 | the selection keeps clean rows clean |
| GliomaAdvanced.Load | ml/NeuroFusion/improved_dataset.py:12-72 | the constructor leaves exactly the specified patients and samples, or the specified error |
| GliomaAdvanced.ScaledClean | ml/NeuroFusion/improved_dataset.py:66-67 | a clean non-empty frame scales into numbers in [0, 1] |
| GliomaAdvanced.BuiltSpec | ml/NeuroFusion/improved_dataset.py:53-67 | scaled patient data in [0, 1]; samples carry unscaled row features; an empty selection is the only scaling failure |
| GliomaAdvanced.SelectionClean | ml/NeuroFusion/improved_dataset.py:42-50 | the sanitised selection is clean |
| GliomaAdvanced.AsWrittenUnscaled | ml/NeuroFusion/improved_dataset.py:54-67 | as written, a patient with age above 1 yields a sample whose age feature is outside [0, 1] |
| GliomaAdvanced.CorrectedScaled | ml/NeuroFusion/improved_dataset.py:54-67 | scaling before expansion puts every feature of every sample in [0, 1] |
| GliomaAdvanced.UnitSamples | ml/NeuroFusion/improved_dataset.py:112-119 | rows with features in [0, 1] give samples with features in [0, 1] |
| GliomaAdvanced.GetItemSpec | ml/NeuroFusion/improved_dataset.py:124-151 | an index in [-n, n) gives the sample's features and grade, survival divided by 100, and the blank image on a failed read; other indices fail |
| Strings.Lower | ml_core/src/preprocessing/data_merger.py:99 | `lower()` maps each ASCII letter to lower case |
| Strings.Upper | ml/NeuroFusion/improved_dataset.py:117 | `upper()` maps each ASCII letter to upper case |
| Strings.ReplaceOnlySuffix | ml/NeuroFusion/improved_dataset.py:103 | replacing a pattern that occurs only as the suffix rewrites that suffix |
| Strings.Split | ml_core/src/utils/config.py:94 | `split('.')` gives at least one piece, none containing the separator |
| Strings.JoinSplit | ml_core/src/utils/config.py:94 | joining the pieces gives back the key |
| Counting.Count | ml_core/src/preprocessing/data_merger.py:216 | `value_counts` of a value is its multiplicity |
| Counting.Distinct | ml_core/src/preprocessing/data_merger.py:216 | the values present, each once |
| Counting.CountsSumToLength | ml_core/src/preprocessing/data_merger.py:216 | counts over a duplicate-free list of labels covering a column sum to its length |
| Dicts.Get | ml_core/src/datasets/dataloader.py:69 | `dict.get` finds the item with that key |
| Dicts.InvertRoundTrip | ml_core/src/datasets/skin_lesion_dataset.py:111 | inverting an injective mapping round-trips both ways and loses no entry |

## Left out

- Image decoding, resizing, colour conversion, augmentation, normalisation and tensor conversion are left out. An image is an opaque value, and only the blank 224 x 224 x 3 fallback is modelled.
- `Path` objects are plain strings. `base / p` is `Strings.JoinPath` for configuration paths, image paths and checkpoint paths: an absolute `p` replaces the base, otherwise one `/` joins them. pathlib's normalisation (dropping `.` components, repeated or trailing separators) is not modelled. The file system is an oracle: it says whether a path exists, lists directories and gives mask areas. The `NotADirectoryError` that `os.listdir` raises when the matched entry is a file (improved_dataset.py:86-94) is not modelled; the listing oracle is total.
- SkinLesion.ImagePathInjective: stated for ids without `/`. With normalisation an id `x` and an id `./x` would name the same file.
- DataMerger.HarmonizeIsicLabels: the source writes the `dx` column into the caller's DataFrame in place (data_merger.py:99-102). The model returns the column as a value, so that aliasing is not captured.
- Floating point is not modelled. All numbers are exact reals, and `float32` casts are not modelled. NaN is `None` or the `Missing` cell. numpy's half-even rounding is modelled on exact values.
- `train_test_split` is an oracle. It returns the two parts or fails. The model assumes only that a successful split is a partition. How it stratifies is not modelled.
- `classification_report`, `roc_auc_score` and `balanced_accuracy_score` are inputs. The report's agreement with the predictions is a stated precondition.
- `MinMaxScaler` is modelled by its formula per column: NaN is ignored when fitting, and a constant column becomes 0.
- Logging, `print`, progress bars, timing, the confusion-matrix and split plots, and `_plot_training_curves` are left out. They have no effect on results.
- `save_splits`, `save_metrics_csv`, `to_csv` and `torch.save` are left out as file output. Checkpoint writes are recorded as (path, epoch, metrics) entries, without model or optimizer state.
- Case conversion covers ASCII only, and `str()` of a number is an oracle (`show`).
- `cv2.imread` and the `float()` of a string are oracles (`load`, `parse`).
- YAML parsing is left out. A parsed file is a tree of string keys. Non-string keys and environment overrides are not modelled. `Config` objects are values, so aliasing between them is not modelled.
- Configuration attribute access beyond `paths`, `dataset.class_to_idx` and dotted `get` is not modelled. `create_dataloaders_from_config` takes the training settings as inputs.
- Configuration.GetValue, Configuration.LookupFollowsDict, Configuration.GetDotted: only stored keys are found. `getattr` also resolves names on the `Config` class (`get('to_dict')`, `get('__class__')`) and attributes of plain values (`get('dataset.image_size.real')`); there the source returns an object where the model returns the default.
- `__repr__`, `get_class_distribution`, `get_sample_info`, `plot_confusion_matrix` and the `main` entry points are not modelled.
- The network's forward and backward passes, the loss, AMP scaling and gradient clipping are left out. Only the order of the per-batch calls is kept. Each epoch's losses and metrics are inputs (`outcome`).
- The learning-rate scheduler is the oracle `lrOf`. It gives the rate after a sequence of balanced accuracies.
- `_validate` is modelled only through its results: the validation loss and the metrics of `compute`.
- Training.Trainer.Train: specified for a trainer fresh from its constructor, which is how the source uses it. Calling `train` twice on one trainer is not modelled. It never fails, because the per-epoch `outcome` is total: the ZeroDivisionError of an empty epoch (`EpochAverages`) and the ValueError of `compute` (`Metrics.Compute`'s error) would end `train()` in the source, and the model does not propagate them.
- DataSplitter.ComparisonRows: the rows are in order of first appearance, not sorted by class name as `sort_index` sorts them. Every property proved about the table does not depend on row order.
- DataLoaders.ComputeClassWeights: the returned tensor is the weight array without the `FloatTensor` conversion.
- GliomaAdvanced.GliomaAdvancedDataset.ExpandSlices: a failing row leaves the samples as they were. The source would have appended the earlier rows' samples before raising, but the half-built object is discarded anyway.
- GliomaAdvanced.SortDescSpec: `list.sort` is modelled as a stable insertion sort. Only its result is specified, not its algorithm.
- Metrics: predictions and labels of different lengths are not modelled. sklearn raises for them.
- The random augmentation of the advanced glioma dataset (`np.random.rand`) is left out with the other image operations.
- The fallback block that creates missing numeric columns (improved_dataset.py:61-64) is not modelled. It can never run, because sanitisation already fails with a KeyError when a numeric column is missing, and `BuiltSpec` states this.

## Findings

| source | as written | input that shows it | evidently intended | confidence | as-written member | corrected member |
|---|---|---|---|---|---|---|
| ml/NeuroFusion/improved_dataset.py:54-67 | the slices are expanded (copying each row's features into the samples) before the numeric columns are min-max scaled, so the samples keep the unscaled features | a selected patient with AGE 50 and one mask slice with positive area: the sample's age feature is 50, outside [0, 1] | scale the numeric columns first, then expand, so every sample's features lie in [0, 1] | not executed | GliomaAdvanced.AsWrittenUnscaled | GliomaAdvanced.CorrectedScaled |
