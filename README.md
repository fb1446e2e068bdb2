# Diabetic-retinopathy training core in Dafny

This project models the bookkeeping beneath the diabetic-retinopathy
classifier's PyTorch scripts. The network, the optimiser, the image
decoder and the random shuffler are not modelled. Each appears as an input
(an oracle): a decode that succeeds or fails, a per-batch loss and
prediction, a permutation.

What is modelled, file by file of the backend:

- `backend/utils.py`, `DRDataGenerator`: the validated dataset index.
  - labels.csv is read and every grade is checked to lie in 0..4.
  - A basename-to-grade map is built in which the last row wins.
  - The `.jpeg` files are visited in sorted path order. A file is kept when
    its basename has a label and the image opens in mode RGB or L.
  - Two parallel lists grow as files are kept. Construction fails when
    nothing survives.
  - `__getitem__` checks the index and re-raises load errors.
  This is a Dafny class whose methods append to its two list fields.
- `backend/model/utils.py`:
  - `get_label` parses `ID_label.jpeg` names.
  - The index collects every `.jpeg` file.
  - Its constructor, as written, calls a method that does not exist (see
    Findings).
- Class-balance weights `total / (K * count)`:
  - the dense `np.bincount` form of `backend/enhanced_training.py` and
    `backend/train.py`;
  - the sparse `value_counts` form and the per-sample weights of
    `backend/model/dataset.py`.
- Split arithmetic:
  - the shuffled prefix/suffix split of `backend/training.py`;
  - `random_split` with the 80/20 sizes of the two other training scripts;
  - DataLoader batching;
  - the warm-up step count.
- The four epoch loops, each as a `while` loop proved equal to a
  specification fold (`Run`). Invariants of the fold are then proved as
  lemmas.
  - `train_and_test` (`backend/training.py`): minimum validation loss, with
    patience 7.
  - `train_model` (`backend/enhanced_training.py`): maximum accuracy, with
    patience 30.
  - `train` (`backend/train.py`) and `train_model` (`backend/pipeline.py`):
    best-only saving, with no early stop.
- `backend/training.py`:
  - the image-path probe over `.jpeg`, `.jpg` and `.png`;
  - the never-raising `CreateDataset.__getitem__`;
  - the checkpoint dictionary with `load_model`'s `(0, inf)` sentinel.
- `backend/test_accuracy.py`:
  - the nine-view weighted test-time augmentation average, with weights
    summing to 6.4, and its arg-max;
  - the correct/total counters;
  - the prediction and label lists.
- `backend/pipeline.py`:
  - the `train/<id>.jpeg` paths;
  - the dataset over parallel path and label lists.

The code behaves in these ways, which a reader might not expect:

- Only `.jpeg` files are indexed, not `.jpg` and `.png`.
- No split refuses to produce an empty subset. `Splits.SmallDatasetSplits`
  states when one is empty. What happens next depends on the loader over
  it. A shuffling training loader over an empty subset raises ValueError
  before any epoch, so with one image backend/train.py stops there
  (`MetricsTraining.MakeLoaders`). A sequential validation loader over an
  empty subset has no batches, and the epoch's average then raises
  ZeroDivisionError.
- `load_model` turns a corrupt checkpoint into the same `(0, inf)` sentinel
  as a missing one. It does not surface the error.
- `backend/training.py` checkpoints on validation loss, not accuracy.

Python exceptions are `Failure` values of a `Result`. Python's `float('inf')`
is `Bound.PosInf`. Floats are reals.

## Model

| member | source | states |
|---|---|---|
| Common.PyIndex | backend/model/utils.py:35 | Python list indexing: an index in `[-n, n)` selects the element `idx` or `idx + n`; any other index raises IndexError |
| Common.TryMap | backend/model/utils.py:25 | a comprehension whose calls may raise: on success one result per element, each the call's value; on failure the exception of the first call that raised, all earlier calls having succeeded |
| Common.TryMapFails | backend/model/utils.py:25 | the comprehension raises exactly when one of its calls raises |
| Common.RangeIndex | backend/training.py:267 | position `i` of `list(range(n))` holds `i` |
| Paths.BaseName | backend/utils.py:41 | `img_path.name` is a separator-free suffix of the path that starts right after a separator or at the start |
| Paths.BaseNameOfJoin | backend/training.py:26 | joining a separator-free file name onto any directory gives a path whose name is that file name |
| Paths.StemDropsExtension | backend/model/utils.py:48 | the stem of `x.ext` is `x` when the extension is non-empty and dot-free |
| Paths.SplitExtDropsExtension | backend/training.py:25 | `os.path.splitext` strips a dot-free extension from a plain name that does not start with a dot |
| PathOrder.PathLeqTotal | backend/utils.py:37 | any two paths are comparable in pathlib's order |
| PathOrder.PathLeqTransitive | backend/utils.py:37 | pathlib's path order is transitive |
| PathOrder.SortBy | backend/utils.py:37 | `sorted` returns a permutation of its input that is ordered by path |
| DataGenerator.LabelMap | backend/utils.py:26 | every manifest filename is a key, and every key's grade is the grade of some row with that filename |
| DataGenerator.LabelMapLastWins | backend/utils.py:26 | with duplicate filenames, the last row for a filename decides its grade |
| DataGenerator.LoadLabelsSpec | backend/utils.py:18-30 | loading fails exactly when the manifest is missing (FileNotFoundError), malformed, or has a grade outside [0, 4] (ValueError); otherwise every mapped grade is in range |
| DataGenerator.Jpegs | backend/utils.py:37 | a file is globbed exactly when it is under the directory and its name ends in `.jpeg` |
| DataGenerator.Candidates | backend/utils.py:37 | the candidates are exactly the `.jpeg` files, sorted by path |
| DataGenerator.SelectSound | backend/utils.py:39-56 | every kept entry comes from a visited file that has a label, opens in RGB or L mode, and is kept with that label |
| DataGenerator.SelectComplete | backend/utils.py:39-56 | every visited file that has a label and opens in a supported mode is kept, with its label |
| DataGenerator.SelectKeepsOrder | backend/utils.py:37-50 | visiting files in sorted order keeps the kept entries in sorted path order |
| DataGenerator.SelectLabelsInRange | backend/utils.py:23-24 | with a validated map, every kept label is a grade in [0, 4] |
| DataGenerator.BuildRejectsOutOfRange | backend/utils.py:18-30 | one manifest grade outside [0, 4] makes construction fail with ValueError, whatever the images |
| DataGenerator.BuildShape | backend/utils.py:18-59 | a successful construction has a valid manifest, at least one entry, only grades in [0, 4], and entries in path order |
| DataGenerator.BuildSound | backend/utils.py:39-56 | each kept entry is a `.jpeg` file that opens as RGB or L, whose basename is labelled, and which carries the manifest's grade for that basename |
| DataGenerator.BuildComplete | backend/utils.py:39-56 | every labelled `.jpeg` file that opens in a supported mode appears in the index with its manifest grade |
| DataGenerator.BuildEmpty | backend/utils.py:58-59 | with a valid manifest, "No valid images" is raised exactly when no `.jpeg` file would be admitted |
| DataGenerator.BuildAfterLabels | backend/utils.py:32-59 | after the labels load, construction is the selection over the sorted candidates (failing when empty), and all its labels are grades |
| DataGenerator.DRDataGenerator.Init | backend/utils.py:33-34 | the two lists start empty |
| DataGenerator.DRDataGenerator.New | backend/utils.py:11-59 | construction raises exactly the error of `Build`; otherwise it gives a fresh generator whose lists are parallel, non-empty, hold only grades, and are the paths and labels of `Build`'s entries |
| DataGenerator.DRDataGenerator.AddImages | backend/utils.py:39-56 | the loop appends exactly the paths and labels of the admitted files, in visiting order |
| DataGenerator.DRDataGenerator.Visit | backend/utils.py:40-56 | one iteration appends the path and label of an admitted file and leaves both lists unchanged for a skipped one |
| DataGenerator.DRDataGenerator.Len | backend/utils.py:86-87 | `__len__` of a constructed generator is at least one and equals the number of labels |
| DataGenerator.DRDataGenerator.GetItem | backend/utils.py:89-107 | IndexError for `idx >= len` (and, through list indexing, below `-len`); for any index in `[-len, len)`, negative ones included, success exactly when the load of the selected path succeeds, with the loaded image and the stored label unchanged (a grade); a failed load is re-raised as the load error |
| ModelUtils.IndexOf | backend/model/utils.py:49 | `find` gives the first occurrence of the character, or none when it is absent |
| ModelUtils.SecondField | backend/model/utils.py:49 | `split('_')[1]` raises IndexError exactly when there is no `_`; otherwise it is the `_`-free text between the first `_` and the next one (or the end) |
| ModelUtils.SecondFieldOf | backend/model/utils.py:49 | the second field of `x_y` is `y` when neither part holds `_` |
| ModelUtils.Strip | backend/model/utils.py:49 | `int()`'s whitespace stripping (ASCII 9 to 13 and space, and the Unicode white space above ASCII, but not U+001C to U+001F) gives a text with no surrounding whitespace that uses only the input's characters |
| ModelUtils.ParseShowInt | backend/model/utils.py:49 | `int(str(i)) == i` for every integer |
| ModelUtils.ParseArabicIndicDigit | backend/model/utils.py:49 | `int()` reads decimal digits of any script: the Arabic-Indic digits U+0660 to U+0669 give 0 to 9 |
| ModelUtils.ParseIntNeedsDigit | backend/model/utils.py:49 | text without a decimal digit of any script is not an integer (ValueError) |
| ModelUtils.GetLabelRoundTrip | backend/model/utils.py:45-50 | a file `ID_label.jpeg` in any directory (ID free of `_` and `/`) is a `.jpeg` file whose label parses back to the label |
| ModelUtils.GetLabelNoField | backend/model/utils.py:49 | a stem without `_` makes `get_label` raise IndexError |
| ModelUtils.GetLabelNotInteger | backend/model/utils.py:49 | a second field without a decimal digit of any script makes `get_label` raise ValueError |
| ModelUtils.CollectJpegs | backend/model/utils.py:24 | the recursive glob keeps exactly the walked paths whose name ends in `.jpeg` |
| ModelUtils.ConstructAsWritten | backend/model/utils.py:24-25 | as written, construction succeeds only when there is no `.jpeg` file, and then indexes nothing |
| ModelUtils.AsWrittenRejectsLabelledImage | backend/model/utils.py:24-25 | a directory holding one well-named image cannot be indexed as written, although its label parses |
| ModelUtils.Construct | backend/model/utils.py:24-25 | with `get_label` called as intended: the paths are the collected `.jpeg` files, with one label per path, each the label its name parses to; construction raises exactly when some collected name does not parse |
| ModelUtils.ConstructIndexesLabelledImage | backend/model/utils.py:24-25 | the intended construction indexes that same one-image directory with the image's label |
| ModelUtils.Len | backend/model/utils.py:31-35 | `__len__` bounds the accepted indices: the path lookup of `__getitem__` succeeds exactly for an index in `[-len, len)` |
| ModelUtils.GetItem | backend/model/utils.py:34-43 | IndexError exactly for an index outside `[-len, len)`; a failed load gives `(None, None)` rather than raising; otherwise the stored label of that index |
| ModelUtils.GetItemRaisesOnlyOutOfRange | backend/model/utils.py:31-43 | with parallel lists, `__getitem__` succeeds exactly for the indices in `[-len, len)`, whatever the loader does, and its only exception is IndexError |
| ClassBalance.Width | backend/enhanced_training.py:152 | `len(np.bincount(labels))` exceeds every label and is one more than the largest (0 for no labels) |
| ClassBalance.Counts | backend/enhanced_training.py:152 | entry `c` is the number of occurrences of class `c` |
| ClassBalance.BinCount | backend/enhanced_training.py:152 | `np.bincount` raises exactly on a negative label; otherwise it gives the count of every class up to the largest label |
| ClassBalance.BinCountSum | backend/enhanced_training.py:152-153 | the class counts add up to the number of labels, `total_samples` |
| ClassBalance.WeightTimesCount | backend/enhanced_training.py:154 | weight times count is `total / K` for every count, so the weighted classes are balanced |
| ClassBalance.DenseWeights | backend/enhanced_training.py:154 | one weight per class: infinite exactly for an absent class, and `total / (K * count)` for a present one |
| ClassBalance.BinCountWeights | backend/enhanced_training.py:152-154 | the script's weights fail exactly on a negative label, and have one entry per class up to the largest label |
| ClassBalance.DenseBalance | backend/train.py:71-73 | every present class gets the finite weight `total / (K * count)`, with K the largest label plus one |
| ClassBalance.DenseRarerHeavier | backend/enhanced_training.py:154 | a rarer present class gets a strictly larger weight |
| ClassBalance.DenseBalanced | backend/enhanced_training.py:152-154 | the weights balance the classes: weight times count is the same, `total / K`, for every present class |
| ClassBalance.ValueCounts | backend/model/dataset.py:33 | `value_counts` has a key exactly for each label that occurs, mapped to its positive number of occurrences |
| ClassBalance.SparseWeights | backend/model/dataset.py:31-37 | a weight exactly for each class that occurs, equal to `total / (K * count)` with K the number of distinct labels; absent classes get no key |
| ClassBalance.SparseRarerHeavier | backend/model/dataset.py:35-36 | a rarer class gets a strictly larger weight |
| ClassBalance.SparseBalanced | backend/model/dataset.py:31-37 | weight times count is the same, `total / K` with K the number of distinct labels, for every class that occurs |
| ClassBalance.SampleWeights | backend/model/dataset.py:28-29 | one weight per row, in row order, equal to the class weight of that row's label |
| ClassBalance.DatasetLen | backend/model/dataset.py:39-40 | `__len__` is the number of manifest rows, which is also the number of sample weights |
| Splits.PermutationMembers | backend/training.py:267-268 | a shuffled `range(n)` has length `n` and holds each index below `n` exactly once |
| Splits.ValidCount | backend/training.py:269 | `floor(0.2 N)` is the largest `s` with `5 s <= N` |
| Splits.ShuffleSplit | backend/training.py:270 | the validation list is the first `floor(0.2 N)` shuffled indices and training is the rest, so together they are the whole permutation |
| Splits.ShuffleSplitPartition | backend/training.py:265-270 | the two index lists have sizes `N - N/5` and `N/5`, are disjoint, together cover every index below `N`, and repeat none |
| Splits.RandomSplit | backend/enhanced_training.py:165-169 | `random_split` raises exactly when the lengths do not add up to the dataset size |
| Splits.RandomSplitPartition | backend/train.py:78-80 | a two-way `random_split` with sizes summing to `N` gives subsets of those sizes that are disjoint and cover every index |
| Splits.EnhancedSizes | backend/enhanced_training.py:160-162 | `val_size = floor(0.2 total)`, and the two sizes add up to `total`; the training size is zero only for an empty dataset |
| Splits.TrainSizes | backend/train.py:76-77 | `train_size = floor(0.8 N)`, and the two sizes add up to `N`; the training size is zero exactly when `N <= 1`, the validation size exactly when `N == 0` |
| Splits.SmallDatasetSplits | backend/enhanced_training.py:160-162 | below five samples the validation subset is empty; with one sample the training subset of backend/train.py is empty; from five on both are non-empty |
| Splits.LoaderLen | backend/enhanced_training.py:199 | `len(loader)` is the least number of batches of the batch size that hold all samples, and is zero only for no samples; a batch size below one is refused |
| Splits.ShuffledLoaderLen | backend/train.py:82-88 | a shuffling loader refuses an empty dataset (NoSamples, checked before the batch size) and a batch size below one; once built it has `len(loader)` batches, at least one |
| Splits.Batches | backend/enhanced_training.py:172-178 | every batch is non-empty and no larger than the batch size |
| Splits.BatchesCover | backend/enhanced_training.py:172-178 | there are `len(loader)` batches, and together they hold every sample once, in order |
| Splits.WarmupSteps | backend/enhanced_training.py:199-200 | the warm-up is `floor(steps / 5)` of `len(train_loader) * epochs` steps, and never exceeds them |
| Tally.Matches | backend/enhanced_training.py:238 | `predicted.eq(labels).sum()` is at most the batch size and equals it exactly when every prediction is right |
| Tally.CorrectSum | backend/enhanced_training.py:236-238 | the correct count never exceeds the total count |
| Tally.Accumulate | backend/enhanced_training.py:235-238 | a pass over a loader gives the summed loss, the summed matches and the summed batch sizes, with `correct <= total`; the total is zero exactly when every batch is empty |
| Tally.Percent | backend/train.py:174-175 | `100 * correct / total` lies in [0, 100]; it is 100 exactly when all are correct and 0 exactly when none are |
| Tally.Fraction | backend/enhanced_training.py:261-262 | `correct / total` lies in [0, 1], is 1 exactly when all are correct and 0 exactly when none are |
| Tally.TotalCountsSamples | backend/enhanced_training.py:237 | the total counted over a pass is the number of samples the batches hold |
| Tally.BestSaves | backend/enhanced_training.py:276-279 | the epochs at which the best-accuracy rule saves are strictly increasing epochs of the run |
| Tally.BestSnoc | backend/enhanced_training.py:276-279 | one more epoch raises the best to the larger of the two, and adds a save exactly when the new accuracy beats the old best |
| Tally.BestSavesSpec | backend/train.py:197-199 | an epoch saves exactly when its accuracy beats 0.0 and every earlier accuracy |
| Tally.BestMonotone | backend/train.py:197-198 | the best accuracy kept never decreases from one epoch to a later one |
| CreateDataset.FirstExisting | backend/training.py:23-29 | the probe returns the first candidate that exists, or nothing exactly when none exists |
| CreateDataset.Candidates | backend/training.py:22-26 | the probed paths are the name without its extension plus `.jpeg`, `.jpg` and `.png`, in that order |
| CreateDataset.GetImagePath | backend/training.py:20-29 | the result is an existing candidate, or None exactly when no extension gives an existing file |
| CreateDataset.GetImagePathOrder | backend/training.py:20-29 | `.jpeg` wins whenever it exists, `.jpg` when `.jpeg` does not exist, and `.png` only when neither does |
| CreateDataset.CandidateReplacesExtension | backend/training.py:24-26 | whatever extension the table gives, `x.ext` is probed as `x` plus each extension |
| CreateDataset.Fallback | backend/training.py:67-70 | the substitute sample is a zero tensor of shape 3 x 224 x 224 with label 0 |
| CreateDataset.NameAndLabel | backend/training.py:44-48 | a two-cell row gives (name, label); any other non-empty row gives its first cell with label 0; an empty row has no name |
| CreateDataset.GetItem | backend/training.py:42-70 | `__getitem__` never raises: the zero tensor with label 0 exactly when some step fails, the loaded image otherwise |
| CreateDataset.GetItemCharacterised | backend/training.py:42-65 | a real image comes back exactly when the index is valid, the row has a text name, a candidate exists and decodes; its label is then the second cell of a two-cell row, else 0 |
| CreateDataset.GetItemFallbacks | backend/training.py:42-70 | an out-of-range index, an empty row, or a name with no existing candidate gives the fallback sample |
| CreateDataset.Len | backend/training.py:39-40 | `__len__` is the number of rows, and every index below it is valid |
| CreateDataset.SaveModel | backend/training.py:115-126 | the checkpoint written holds the epoch and the validation loss |
| CreateDataset.LoadModel | backend/training.py:128-141 | a missing or unreadable checkpoint gives `(0, inf)`; a readable one gives its epoch and loss, each defaulting to 0 or `inf` when absent |
| CreateDataset.SaveLoadRoundTrip | backend/training.py:115-141 | reading back what `save_model` wrote gives the saved epoch and loss; the sentinel loss is above every finite loss |
| LossTraining.EpochStats | backend/training.py:191-193 | an epoch's statistics exist exactly when both loaders are non-empty (otherwise ZeroDivisionError abandons the epoch) |
| LossTraining.TrainPass | backend/training.py:154-169 | `running_loss` is the sum of the losses of the training batches that did not raise |
| LossTraining.ValidPass | backend/training.py:177-188 | `test_loss` and `accuracy` are the sums over the validation batches that did not raise |
| LossTraining.TrainAndTest | backend/training.py:144-226 | the loop's final lists, best loss, counter, checkpoints and break flag are those of the specification fold `Run` |
| LossTraining.StoppedIsFinal | backend/training.py:212-214 | after the break, later epochs change nothing |
| LossTraining.StepKeepsInv | backend/training.py:195-214 | one epoch keeps the invariant: lists in lockstep, best is the least loss so far and held by the last checkpoint, counter counts non-improving epochs since the best, break exactly at patience 7 |
| LossTraining.RunInv | backend/training.py:144-226 | every state the loop reaches satisfies that invariant |
| LossTraining.SavesImprove | backend/training.py:205-209 | successive checkpoints hold strictly decreasing losses, and the history never has more entries than epochs run |
| LossTraining.FirstEpochSaves | backend/training.py:205-209 | with an empty loader nothing is ever recorded; otherwise the first epoch writes a checkpoint, the best starting at infinity |
| LossTraining.EmptyLoaderRecordsNothing | backend/training.py:190-224 | when a loader is empty, every epoch is abandoned and the state stays initial |
| LossTraining.StepAppends | backend/training.py:190-197 | an epoch with an empty loader changes nothing; otherwise its train loss, validation loss and accuracy are appended, one to each list |
| LossTraining.HistoryIsStats | backend/training.py:144-214 | with both loaders non-empty, entry `i` of the three lists is epoch `i`'s statistics, and a run without a break has exactly one entry per epoch |
| LossTraining.CheckpointRule | backend/training.py:205-209 | with both loaders non-empty, epoch `i` writes a checkpoint exactly when its validation loss is below every earlier one, and every checkpoint names a completed epoch |
| LossTraining.StopsAfterPatience | backend/training.py:210-214 | the loop has broken out only after more than seven epochs, the last seven of which did not beat the best; otherwise the counter is below seven |
| EnhancedTraining.LoadedLabels | backend/enhanced_training.py:143-150 | the collected labels are at most as many as the samples, and each is a sample's label |
| EnhancedTraining.LoadedLabelsAll | backend/enhanced_training.py:143-150 | when every sample loads, every label is collected, in order |
| EnhancedTraining.CollectLabels | backend/enhanced_training.py:143-150 | the loop collects, in index order, the labels of the samples whose `__getitem__` does not raise |
| EnhancedTraining.CollectedWeights | backend/enhanced_training.py:152-154 | the collected labels are grades, so `bincount` accepts them with at most five classes and its counts add up to `total_samples` |
| EnhancedTraining.MakePlan | backend/enhanced_training.py:159-205 | planning fails exactly for an empty dataset (the shuffling training loader's ValueError) or a batch size below one, with the empty dataset reported first; the warm-up never exceeds the training steps |
| EnhancedTraining.PlanPartitions | backend/enhanced_training.py:160-169 | the two subsets are disjoint, cover every index, and the validation subset holds `floor(0.2 n)` of them |
| EnhancedTraining.TrainLoop | backend/enhanced_training.py:210-285 | the loop's final history, best, counter, checkpoints and break flag (or its ZeroDivisionError) are those of the fold `Run` |
| EnhancedTraining.EpochBody | backend/enhanced_training.py:215-285 | one loop body is one step of the fold: an empty pass raises, otherwise the figures are recorded and the rule applied |
| EnhancedTraining.RunFailureFinal | backend/enhanced_training.py:283-285 | once the loop has raised or broken out, later epochs change nothing |
| EnhancedTraining.StepKeepsInv | backend/enhanced_training.py:261-285 | an epoch with fractional accuracies keeps the invariant (history in lockstep, best and checkpoints following the accuracies, counter and break) |
| EnhancedTraining.FiguresStep | backend/enhanced_training.py:264-268 | each epoch appends one value to each of the four history lists, and accuracies stay in [0, 1] |
| EnhancedTraining.BestStep | backend/enhanced_training.py:276-279 | the best stays the largest validation accuracy (from 0.0), and saves stay exactly at the strict improvements |
| EnhancedTraining.CountsStep | backend/enhanced_training.py:276-285 | the counter stays the number of epochs since the last save, and the break happens exactly when it reaches 30 |
| EnhancedTraining.RunInv | backend/enhanced_training.py:210-285 | every reached state keeps the invariant, with one history entry per epoch run until the break |
| EnhancedTraining.BestAccuracyRule | backend/enhanced_training.py:276-285 | epoch `i` saves exactly when its accuracy beats 0.0 and every earlier one; the best bounds every accuracy; a run that broke out saved nothing in its last 30 epochs |
| EnhancedTraining.NoRecentSave | backend/enhanced_training.py:281-285 | at the break, at least 30 epochs have run and none of the last 30 saved |
| MetricsTraining.AllLabels | backend/train.py:70 | the comprehension gives all the generator's labels in order exactly when every image loads; otherwise the load error propagates |
| MetricsTraining.MakeLoaders | backend/train.py:75-96 | building the loaders fails exactly when there is at most one sample (the shuffling training loader's ValueError over an empty training subset, reported first) or the batch size is below one; built loaders both have at least one batch |
| MetricsTraining.LoadersPartition | backend/train.py:76-96 | the two subsets are disjoint, cover every index, the training subset holds `floor(0.8 n)` of them, and each loader has `len(loader)` batches for its subset |
| MetricsTraining.Train | backend/train.py:122-200 | the loop's final metrics, best and saves (or its ZeroDivisionError) are those of the fold `Run` |
| MetricsTraining.EpochBody | backend/train.py:124-200 | one loop body is one step of the fold |
| MetricsTraining.FailureFinal | backend/train.py:174-175 | once an epoch has raised, later epochs are never reached |
| MetricsTraining.StepKeepsInv | backend/train.py:177-200 | an epoch with percentage accuracies keeps the invariant: one entry per list per epoch, epochs numbered 0, 1, 2, ..., the best the largest accuracy and saves exactly at the strict improvements |
| MetricsTraining.FiguresStep | backend/train.py:174-183 | each epoch appends one value to each of the six metric lists, the epoch list stays 0, 1, 2, ..., and accuracies stay in [0, 100] |
| MetricsTraining.RunInv | backend/train.py:122-200 | a run that does not raise runs all epochs and keeps the invariant |
| MetricsTraining.RunFails | backend/train.py:174-175 | a run raises ZeroDivisionError exactly when some epoch has a pass with no samples |
| MetricsTraining.BestAccuracyRule | backend/train.py:197-200 | epoch `i` saves exactly when its accuracy beats 0.0 and every earlier one; the best bounds every accuracy and never decreases |
| Pipeline.Preprocess | backend/pipeline.py:115-117 | one path and one label per manifest row, in manifest order: `data_dir/train/<id>.jpeg` and the row's level |
| Pipeline.ImagePathNamesId | backend/pipeline.py:116 | each path names the file `<id>.jpeg`, whose stem gives the id back |
| Pipeline.Len | backend/pipeline.py:30-34 | `__len__` bounds the accepted indices: the path lookup of `__getitem__` succeeds exactly for an index in `[-len, len)` |
| Pipeline.GetItem | backend/pipeline.py:33-39 | an index outside `[-len, len)` raises IndexError; with parallel lists and any index inside it, negative ones included, success exactly when the load of the selected path succeeds, with the label at the same position; a failed load is the load error |
| Pipeline.ValAcc | backend/pipeline.py:92 | the validation accuracy is a percentage |
| Pipeline.AdvanceKeepsBest | backend/pipeline.py:99-101 | one epoch keeps `best_val_acc` the largest accuracy (from 0.0), and the saves at the strict improvements |
| Pipeline.RunFails | backend/pipeline.py:91-92 | training raises ZeroDivisionError exactly when some epoch has an empty pass |
| Pipeline.RunSpec | backend/pipeline.py:52-101 | without an empty pass, `best_val_acc` is the largest accuracy (or 0.0), and saves happen exactly at the strict improvements |
| Pipeline.BestAccuracyRule | backend/pipeline.py:99-101 | epoch `i` saves exactly when its accuracy beats 0.0 and every earlier one, and the best never decreases |
| Pipeline.TrainModel | backend/pipeline.py:47-103 | the loop's final best and saves (or its ZeroDivisionError) are those of the fold `Run` |
| Tta.TotalWeight | backend/test_accuracy.py:113-114 | `total_weight` is 6.4, the sum of the nine applied coefficients |
| Tta.Combine | backend/test_accuracy.py:105-115 | the combined output has one score per class |
| Tta.CombineIsWeightedMean | backend/test_accuracy.py:99-115 | each combined score is the weighted mean of the nine views' scores, with weights 1.0, 0.8 twice, 0.6 four times, 0.7 and 0.7 |
| Tta.CombineSame | backend/test_accuracy.py:105-115 | nine equal views combine to that same vector |
| Tta.Argmax | backend/test_accuracy.py:117 | the predicted class has a maximal score, and is the first such class |
| Tta.ArgmaxUnique | backend/test_accuracy.py:117 | any first maximal index is the arg-max |
| Tta.Predict | backend/test_accuracy.py:105-117 | the prediction is a class index |
| Tta.PredictSame | backend/test_accuracy.py:105-117 | when the nine views agree, the prediction is that view's arg-max |
| Tta.BatchPredictions | backend/test_accuracy.py:117 | one prediction per sample of the batch, in order |
| Tta.BatchLabels | backend/test_accuracy.py:122 | one label per sample of the batch, in order |
| Tta.Lockstep | backend/test_accuracy.py:121-122 | `all_predictions` and `all_labels` always have the same length |
| Tta.TestModel | backend/test_accuracy.py:61-132 | fails exactly when no sample was seen (ZeroDivisionError) or the classification report does not find five classes (ValueError), the former reported first; otherwise the two lists are the predictions and labels in order, in lockstep, with `correct <= total` and accuracy `100 * correct / total` |
| Tta.ReportNeedsEveryGrade | backend/test_accuracy.py:128-132 | when every label and prediction is a grade, the report is produced exactly when each of the five grades occurs among them |
| Tta.OneSampleReportRaises | backend/test_accuracy.py:132 | with a single test sample the report raises ValueError, whatever the label and prediction |

## Left out

- The networks, focal loss, optimisers, schedulers, mixed precision,
  `backward` and gradient clipping are not modelled: each batch is an input
  giving its loss, its predictions and its targets. The learning rate
  recorded by backend/train.py is an input per epoch.
- Image decoding, colour conversion and transforms are a loading oracle
  that succeeds or fails. The mode check of backend/utils.py is an input
  per file.
- Randomness (`np.random.shuffle`, `random_split`'s generator) is an
  arbitrary permutation given as input. Equal seeds giving equal splits
  follows only because the permutation is an input.
- The stratified `train_test_split` of backend/pipeline.py is not modelled.
  Stratification is a library algorithm over random draws.
- CSV, checkpoint and directory I/O, logging, printing and plotting are not
  modelled. This includes the plots in backend/training.py's `main`, which
  divide the accuracy by the loader length a second time.
- `load_data` of backend/training.py is not modelled. It fabricates random
  labels.
- `main()` of backend/training.py is not modelled, including its use of
  what `load_model` returns.
- DataLoader worker processes are not modelled: loading is sequential.
- Floats are reals. `int(0.2 * N)` and `int(0.8 * N)` are the exact floors
  of `N / 5` and `4N / 5`, not their IEEE evaluations.
- `DRDataset.__getitem__` of backend/model/dataset.py is not modelled.
- backend/main.py, the notebooks' preprocessing, the inference scripts and
  the stub files are not modelled.
- Paths are plain POSIX text. pathlib's normalisation of `.` and `//` is
  not modelled, and the sort order assumes normalised paths.
- LossTraining.TrainPass: an exception in a training batch is the oracle
  outcome None. An exception raised by `optimizer.step()` or
  `scheduler.step()` after an epoch's statistics are recorded is not
  modelled.
- DataGenerator.DRDataGenerator.GetItem: the image mode conversion and
  transform are part of the loading oracle, so the contract does not state
  what the returned image is beyond the oracle's value.
- ClassBalance.DenseWeights: the numpy division warning for an absent class
  is not modelled, only the resulting `inf`.
- EnhancedTraining.TrainLoop: every batch is assumed to load. A load error
  that `DRDataGenerator.__getitem__` re-raises (backend/utils.py:103-107)
  would escape the loop at backend/enhanced_training.py:220; the model's
  only error is ZeroDivisionError.
- MetricsTraining.Train: every batch is assumed to load. A re-raised load
  error would escape the loop at backend/train.py:129; the model's only
  error is ZeroDivisionError.
- MetricsTraining.RunFails: for the same reason it characterises only the
  ZeroDivisionError.
- MetricsTraining.Train: the epochs' batches are inputs and are not derived
  from the loaders `MetricsTraining.MakeLoaders` builds. Built loaders have
  batches on both sides, so the ZeroDivisionError of `RunFails` cannot
  arise in backend/train.py itself. With one image the shuffling loader's
  ValueError comes first; the model keeps the division error for epochs
  given directly.
- Pipeline.TrainModel: every batch is assumed to load. A failed open in
  `DRDataset.__getitem__` (backend/pipeline.py:35) would escape the loop
  at backend/pipeline.py:60; the model's only error is ZeroDivisionError.
- Pipeline.RunFails: for the same reason it characterises only the
  ZeroDivisionError.
- Tta.TestModel: every batch is assumed to load. A re-raised load error
  would escape the loop at backend/test_accuracy.py:68 and be re-raised at
  154-156; the model's errors are ZeroDivisionError and the report's
  ValueError. The report's ValueError follows scikit-learn: without
  `labels`, a number of classes found that differs from the number of
  `target_names` is refused. The report's text, the confusion matrix, the
  plot and the results file (lines 133-149) are not modelled.
- DataGenerator.LoadLabels: grades are assumed to be integers. A manifest
  whose label column pandas reads as floats (a cell `2.0` or `2.5`) passes
  the range check at backend/utils.py:23 and is stored as float labels.
  `np.bincount` then raises TypeError at backend/train.py:71 and
  backend/enhanced_training.py:152. The model's integer grades cannot
  express that input, so `EnhancedTraining.CollectedWeights` holds only
  for integer grades.
- ModelUtils.ParseInt: the `_` digit grouping that `int()` accepts is not
  modelled, because the field `get_label` parses is split on `_` and never
  holds one. The decimal-digit and white-space sets are those of
  Unicode 15.0.

## Findings

| source | as written | input that shows it | evidently intended | confidence | as-written member | corrected member |
|---|---|---|---|---|---|---|
| backend/model/utils.py:25 | the constructor calls `self.get_label`, but `get_label` is a module-level function, so the class has no such attribute | a data directory holding one file `10_3.jpeg`: construction raises AttributeError, though `get_label` would give 3 | make `get_label` a method of the class (it already takes `self` first) so that `self.get_label(img_path)` resolves; calling the module-level function with one argument would raise TypeError instead | not executed | ModelUtils.AsWrittenRejectsLabelledImage | ModelUtils.ConstructIndexesLabelledImage |
