# WGAN bookkeeping, modelled in Dafny

`wgan/wgan.py` trains a conditional Wasserstein GAN (WGAN-GP) on tabular data
with PyTorch. Around the networks sits a layer of deterministic bookkeeping,
and this project models that layer and proves properties about it:

- **Token features** (module `Features`):
  - `collect_features` counts the comma-separated tokens of a word column into a dict;
  - `get_top_features` keeps the highest-count entries, using a stable ascending sort and the slice `[-n:]`;
  - `make_feature_vector` builds a 0/1 indicator vector.
- **`DataWrapper` metadata** (modules `Codec`, `Dummies`, `Text`, `Bounds`):
  - means and `std + 1e-5`;
  - the per-variable cardinalities `cat_dims`;
  - the label↔code vocabularies `words_to_int` / `int_to_words`, built from the `pandas.get_dummies` column order;
  - `cat_labels`;
  - the ±1e8 default bounds and their z-scoring;
  - the bookkeeping of `deprocess`. `deprocess` replaces every categorical name with itself and its "filler" names `var + str(i)`, copies the vocabularies to the fillers, zips the names with the output columns and maps codes back to words. It overwrites the wrapper's categorical name list in place on every call.
- **Dimensions** (module `Networks`):
  - the widths that `Specifications` derives (`d_x`, and the noise width behind the `"generator_d_output"` sentinel);
  - the layer shapes of `Generator` and `Critic`;
  - the bound clamp of `Generator._transform`.
- **Training schedule** (module `Training`):
  - the global step;
  - which batch updates the generator;
  - the `n_batches` counts and the divisions by them, which can fail;
  - printing, checkpointing, and resuming from a checkpoint.
- **OAdam bookkeeping** (module `Optimizer`):
  - validation of the hyper-parameters;
  - per parameter: skipping a parameter with no gradient, rejecting sparse gradients, lazily creating the state, weight decay, the step counter, the two moment averages and the AMSGrad running maximum.
- **Penalty reductions** (module `Penalties`):
  - the one-sided gradient penalty `mean(relu(norm - 1))`;
  - the tail of the kernel-regression monotonicity penalty: the kernel, the 20-point grid, the normalised weights and the sum of clamped drops.

Floats are modelled as exact reals, and Python dicts as insertion-ordered
sequences of pairs or as Dafny maps. A Python dict that is updated in place
becomes a `class` field (`Codec.DataWrapper`, `Optimizer.OAdam`). A loop in the
source becomes a method whose loop invariants tie it to a specification
function. The properties are proved about that function.

Where the code and its documentation disagree, the model follows the code:

- `OAdam` accepts a learning rate of exactly 0; only negative rates are refused.
- Resuming from a checkpoint re-runs the saved epoch, because the loop is `range(start_epoch, …)` with the saved epoch. It does not start at the epoch after it.
- `Specifications` is described as rejecting out-of-range settings, but its constructor validates none of them: it only derives `d_x`, the noise width and the data dimensions. `Networks.Specify` accepts every setting.

## Model

| member | source | states |
|---|---|---|
| Text.Split | wgan/wgan.py:27 | `obs.split(',')`: the pieces between separators, with an empty piece before a leading, after a trailing and between two adjacent commas, and `[""]` for the empty string |
| Text.SplitPieces | wgan/wgan.py:27 | `obs.split(',')` yields one piece more than there are commas, and no piece contains a comma |
| Text.JoinSplit | wgan/wgan.py:27 | joining the pieces of a split with ',' gives back the observation, so splitting loses nothing |
| Text.SplitJoin | wgan/wgan.py:27 | splitting a ','-join of comma-free tokens gives back exactly those tokens, in order |
| Text.DecimalInjective | wgan/wgan.py:229 | `str(i)` is injective on naturals, so the filler suffixes of one variable never collide |
| Text.Decimal | wgan/wgan.py:229 | `str(i)` of a natural: one or more decimal digits, with a leading `0` exactly for 0 |
| Text.LessTotal | wgan/wgan.py:127 | code-point order on strings (the order `get_dummies` sorts by) is total on distinct strings |
| Text.LessTransitive | wgan/wgan.py:127 | that order is transitive |
| Dummies.DummyLabels | wgan/wgan.py:127 | the dummy columns of a word column are strictly ascending and are exactly the column's values |
| Dummies.DummyLabelsCount | wgan/wgan.py:117 | there are as many dummy columns as distinct values (`nunique`) |
| Dummies.DummyCodes | wgan/wgan.py:134 | the dummy columns of a float column are strictly increasing and are exactly the column's values |
| Dummies.DummyCodesCount | wgan/wgan.py:117 | a float column has as many dummy columns as distinct values |
| Dummies.IncreasingUnique | wgan/wgan.py:134 | two increasing lists with the same elements are equal, so the dummy columns are determined by the set of values |
| Dummies.DummyCodesOfRange | wgan/wgan.py:130-134 | a column whose values are exactly the codes 0..k-1 has the dummy columns 0.0, 1.0, …, k-1, in that order |
| Bounds.ZScore | wgan/wgan.py:145 | `(x - mean) / std` for a positive std |
| Bounds.Unscale | wgan/wgan.py:200 | `x * std + mean`, the scaling `deprocess` undoes |
| Bounds.ScaleRoundTrip | wgan/wgan.py:200 | `x*s+m` undoes `(x-m)/s` and vice versa, for every positive std |
| Bounds.ZScoreMonotone | wgan/wgan.py:145 | z-scoring with a positive std keeps `<=` and `<` in both directions |
| Bounds.ScaledBounds | wgan/wgan.py:143-145 | per continuous variable the configured bound or the sentinel, z-scored with that variable's mean and std |
| Bounds.RawBound | wgan/wgan.py:143-144 | one raw bound: the configured value when the variable has one, else the sentinel (`-1e8` or `1e8`) |
| Bounds.UnconfiguredBounds | wgan/wgan.py:143-144 | a variable without configured bounds gets exactly -1e8 and 1e8, lower strictly below upper |
| Bounds.ScaledBoundsOrdered | wgan/wgan.py:143-145 | raw bounds that are ordered (including the sentinels) stay ordered after z-scoring with `std + 1e-5` |
| Bounds.Clamp | wgan/wgan.py:538-539 | max-with-lower then min-with-upper: the result is at most the upper bound, at least the lower bound when the bounds are ordered, unchanged when already inside, the upper bound when the bounds cross, and always one of the value and the two bounds |
| Bounds.ClampIdempotent | wgan/wgan.py:538-539 | clamping twice equals clamping once |
| Bounds.ClampedOutputWithinRawBounds | wgan/wgan.py:145 | a generated value clamped to the z-scored bounds and unscaled by `deprocess` lies within the raw bounds the user configured |
| Codec.Stds | wgan/wgan.py:112 | every std the wrapper keeps is at least 1e-5, so positive, one per column |
| Codec.Mean | wgan/wgan.py:111 | `x.mean(0)` of one column: its sum over its number of rows |
| Codec.MeanWithin | wgan/wgan.py:111 | a column's mean lies between any lower and upper bound of its values |
| Codec.Means | wgan/wgan.py:111 | one mean per column, in column order |
| Codec.SampleVariance | wgan/wgan.py:112 | the unbiased variance behind `x.std(0)`: squared deviations from the mean over `rows - 1`; never negative |
| Codec.SampleStds | wgan/wgan.py:112 | `x.std(0)`: per column, a non-negative value whose square is the column's unbiased variance (at least two rows) |
| Codec.Vocabulary | wgan/wgan.py:127 | `pd.get_dummies(df[v]).columns` of a word column: its distinct words in ascending order |
| Codec.WordsToInt | wgan/wgan.py:128 | `words_to_int[v]`: each label mapped to its position in the dummy columns |
| Codec.IntToWords | wgan/wgan.py:129 | `int_to_words[v]`: each position mapped to its label |
| Codec.WordsToIntEntries | wgan/wgan.py:128 | `words_to_int[v]` has exactly the labels as keys, each mapped to its column position |
| Codec.VocabularyBijection | wgan/wgan.py:127-129 | `words_to_int[v]` and `int_to_words[v]` are mutually inverse; they cover exactly the distinct words and the codes 0..k-1; k is the number of distinct words |
| Codec.Encode | wgan/wgan.py:130 | `df[v].map(words_to_int[v])`: every word replaced by its code, one per row |
| Codec.EncodeInRange | wgan/wgan.py:130 | every code of `df[v].map(words_to_int[v])` lies in 0..k-1 |
| Codec.EncodeCovers | wgan/wgan.py:130 | every code 0..k-1 occurs in the mapped column |
| Codec.CatLabels | wgan/wgan.py:130-134 | the labels stored in `cat_labels`: the dummy columns of the coded column for words, of the column itself for floats |
| Codec.WordLabelsAreCodes | wgan/wgan.py:130-134 | `cat_labels` of a word variable are exactly 0.0..k-1 in order |
| Codec.CatDim | wgan/wgan.py:117 | `df[v].nunique()`: the number of distinct values of the column |
| Codec.CatDimPositive | wgan/wgan.py:117 | a non-empty categorical column has at least one category |
| Codec.CatDimMatchesLabels | wgan/wgan.py:117-134 | `cat_dims[i]` equals the number of `cat_labels` of variable i, for word and float columns alike |
| Codec.BuildTables | wgan/wgan.py:123-135 | the vocabulary tables of `__init__` name the same variables in both directions, every pair is a bijection, and every key is a categorical variable |
| Codec.AddVocabulary | wgan/wgan.py:125-133 | one loop iteration adds the variable exactly when its column holds words, keeps both tables valid and leaves the other variables' tables alone |
| Codec.BuildTablesLookup | wgan/wgan.py:123-135 | with distinct names, a variable has a vocabulary iff its column holds words, and then it has that column's vocabulary |
| Codec.IndexCategorical | wgan/wgan.py:123-135 | the loop builds exactly those tables and one `cat_labels` entry `(v, labels)` per variable, each as wide as its `cat_dims` entry and at least 1 |
| Codec.DataWrapper.constructor | wgan/wgan.py:98-146 | the new wrapper keeps the variable lists, the means, `std + 1e-5`, `nunique` per categorical variable, the vocabularies and labels of `IndexCategorical`, and the z-scored bounds with ±1e8 defaults; its invariant holds |
| Codec.Fillers | wgan/wgan.py:229 | `[var + str(i) for i in range(1, n)]`: `max(n,1) - 1` names, the i-th being `var + str(i+1)` |
| Codec.FillerIsNotVariable | wgan/wgan.py:229 | no filler equals its variable (each is longer) |
| Codec.FillersDistinct | wgan/wgan.py:229 | the fillers of one variable are pairwise distinct |
| Codec.ExpandNames | wgan/wgan.py:226-230 | the new categorical name list: each name in order, followed by its fillers |
| Codec.ExpandNamesLength | wgan/wgan.py:226-238 | the expanded name list is `max(n,1)` times as long as the original |
| Codec.ExpandNamesOneDraw | wgan/wgan.py:226-238 | with `n_features <= 1` the name list is unchanged |
| Codec.ExpandNamesBlock | wgan/wgan.py:226-238 | position `k*max(n,1) + i` of the expanded list holds `cats[k]` for i = 0 and `cats[k] + str(i)` otherwise |
| Codec.ExpandNamesPrefix | wgan/wgan.py:226-238 | expanding a prefix of the name list gives a prefix of the expansion |
| Codec.Block | wgan/wgan.py:227-230 | each variable contributes `max(n,1)` names: itself, then its fillers |
| Codec.AliasFillers | wgan/wgan.py:233-235 | every filler's `words_to_int` and `int_to_words` entry set to the variable's own tables, all other entries kept |
| Codec.AliasVariable | wgan/wgan.py:232-235 | copying a vocabulary to the fillers keeps every pair of tables a bijection |
| Codec.AliasVariableKeys | wgan/wgan.py:232-235 | one variable's copying adds exactly its fillers as keys, and only when the variable has a vocabulary |
| Codec.AliasAll | wgan/wgan.py:226-238 | after the whole loop both tables are still valid |
| Codec.AliasAllKeepsKeys | wgan/wgan.py:226-238 | `deprocess` never removes a vocabulary |
| Codec.AliasAllElsewhere | wgan/wgan.py:226-238 | every key that is not a filler name keeps both of its tables (or stays absent) |
| Codec.AliasAllCopies | wgan/wgan.py:232-235 | when the expanded list has no repeated name, each filler of a vocabulary variable gets exactly that variable's two tables |
| Codec.FillerNamesListed | wgan/wgan.py:226-238 | every original name and every filler appears in the expanded list |
| Codec.DataWrapper.CopyTables | wgan/wgan.py:233-235 | the inner loop leaves the tables equal to `AliasFillers` of the old ones and the name list untouched |
| Codec.DrawError | wgan/wgan.py:212-222 | one block's sampling: a vocabulary variable fails unless `1 <= n <= cat_dim` (multinomial without replacement); a float-coded one fails when a non-empty zero block does not have one row per generated row |
| Codec.DataWrapper.DrawBlocks | wgan/wgan.py:212-214 | per categorical block, whether `l[0] in self.int_to_words` holds against the tables as they stand now (which changes on a second call), and its category count |
| Codec.FirstDrawError | wgan/wgan.py:212-223 | the sampling loop succeeds iff every categorical block can be sampled |
| Codec.DrawsWithinVocabularies | wgan/wgan.py:216 | with only word variables and `1 <= n_features <= cat_dims[i]` for all i, sampling never fails |
| Codec.ZeroFillerRows | wgan/wgan.py:222 | with generated rows, the as-written zero block exists exactly from two draws on, and has as many rows as the draw exactly at two |
| Codec.BlockWidth | wgan/wgan.py:216-222 | columns one sampled block adds to the categorical tensor: `n` for a vocabulary variable; for a float-coded variable that samples without error, `n` with generated rows but 1 with none, because the empty zero block is skipped; never more than `max(n,1)` |
| Codec.CatWidth | wgan/wgan.py:212-223 | width of `torch.cat(new_categorical, -1)`: at most `max(n,1)` per variable, and exactly that when there are generated rows and sampling succeeds |
| Codec.ZeroRowsNarrowFloatBlock | wgan/wgan.py:222-223 | with no generated rows and `n >= 2`, a single float-coded variable makes the categorical tensor narrower than the expanded name list, so the zip drops trailing names |
| Codec.DataWrapper.OutputWidth | wgan/wgan.py:199-241 | width of the tensor zipped with the names: the continuous and context widths plus `CatWidth` of the current blocks; `len(cats)*max(n,1)` categorical columns when rows are generated and sampling succeeds |
| Codec.ZipKeys | wgan/wgan.py:240-241 | `dict(zip(names, columns))` keeps only as many names as there are output columns |
| Codec.DataWrapper.Deprocess | wgan/wgan.py:184-248 | a sampling failure changes nothing. Otherwise the name list becomes its expansion, the tables become `AliasAll` of the old ones, and the call returns the names zipped with the `OutputWidth(n, rows)` columns computed before the call; it fails with the KeyError case iff some vocabulary variable is not among them |
| Codec.ZeroFillerShape | wgan/wgan.py:222 | as written, the zero block has `(n-1)*rows` rows of width 1, and is an empty tensor that concatenation skips when `n <= 1` or there are no rows |
| Codec.ZeroFillerMisaligned | wgan/wgan.py:222 | as written, from 3 draws on the zero block of a float-coded variable has `(n-1)*rows` rows, not `rows` (Findings) |
| Codec.ZeroFillerBlock | wgan/wgan.py:222 | corrected zero block: `rows` rows and one column per filler (Findings) |
| Codec.IntendedDrawError | wgan/wgan.py:212-222 | corrected sampling: only a vocabulary variable asked for no draws or more draws than it has categories fails; a float-coded block never does (Findings) |
| Codec.IntendedWidth | wgan/wgan.py:222-223 | corrected categorical width: `max(n,1)` per vocabulary variable, and for a float-coded variable the draw plus the `(rows, n-1)` zeros |
| Codec.IntendedWidthAll | wgan/wgan.py:222-223 | with the corrected block every variable gives `max(n,1)` columns, for any number of rows |
| Codec.ZeroFillerBlockFits | wgan/wgan.py:222 | with the corrected block, the categorical tensor has exactly one column per name of the expanded list, for any number of rows (Findings) |
| Codec.SecondExpansionOverflows | wgan/wgan.py:238 | as written, a second `deprocess` with `n > 1` holds `len(cats)*n*n` names, more than the `len(cats)*n` categorical columns (Findings) |
| Codec.SecondExpansionNames | wgan/wgan.py:226-241 | for one variable v and two draws the second call names `[v, v1, v1, v11]`, and the two-column frame keeps only `[v, v1]` |
| Codec.SecondCallMissesColumn | wgan/wgan.py:245-246 | for a wrapper whose only variable is the word variable v (with at least two categories, so that two draws can be sampled), on that second call `v11` gets a vocabulary but is not a column of the frame, so the mapping loop fails (Findings) |
| Codec.OutputSchema | wgan/wgan.py:226-238 | corrected naming step: the expanded names and aliased tables computed afresh from the construction-time list, leaving the wrapper unchanged (Findings) |
| Codec.OutputSchemaLabelsAllColumns | wgan/wgan.py:226-241 | corrected naming, derived afresh from the construction-time list: `len(cats)*max(n,1)` names, and every vocabulary key is one of them (Findings) |
| Features.Bump | wgan/wgan.py:29 | `d[t] = d.setdefault(t, 0) + 1` on an insertion-ordered dict: t's count goes up by one where it stands, or `(t, 1)` is appended |
| Features.Tokens | wgan/wgan.py:27 | `obs.split(',')`: one token more than the observation has commas, and no token contains a comma |
| Features.TallyTokens | wgan/wgan.py:28-29 | the tokens of one observation bumped into the dict left to right |
| Features.TallyObservation | wgan/wgan.py:26-31 | a string observation's tokens are tallied; a non-string raises inside `try` and adds nothing |
| Features.BumpLookup | wgan/wgan.py:29 | `d[t] = d.setdefault(t, 0) + 1` raises the count of t by one and leaves every other count alone |
| Features.BumpKeys | wgan/wgan.py:29 | the keys gain exactly t, and distinct keys with counts of at least 1 stay so |
| Features.BumpAt | wgan/wgan.py:29 | the update is in place: the count at t's position goes up, or `(t, 1)` is appended |
| Features.TallyTokensCounts | wgan/wgan.py:27-29 | tallying tokens adds each token's multiplicity to its count; the keys are the old keys plus the tokens |
| Features.Collected | wgan/wgan.py:20-33 | the dict `collect_features` builds: the observations tallied in order, the tokens of a string, nothing for a non-string |
| Features.CollectedCounts | wgan/wgan.py:20-33 | the collected dict maps every token to its number of occurrences over all string observations, has exactly the occurring tokens as keys and is well formed; non-strings add nothing |
| Features.TallyInPlace | wgan/wgan.py:28-29 | the inner loop (linear key search, then increment or append) computes `TallyTokens` |
| Features.CollectFeatures | wgan/wgan.py:20-33 | `collect_features` returns a dict whose count for every token is its number of occurrences; its keys are exactly the occurring tokens |
| Features.InsertByCount | wgan/wgan.py:40 | insertion keeps the list ascending by count and adds exactly the one entry |
| Features.SortByCount | wgan/wgan.py:40 | `sorted(…, key=count)` is ascending by count and a permutation of the items |
| Features.SortByCountStable | wgan/wgan.py:40 | the sort is stable: entries with equal count keep their relative order |
| Features.TopFeatures | wgan/wgan.py:35-40 | `get_top_features`: the items sorted stably ascending by count, then sliced `[-n:]` |
| Features.SliceFrom | wgan/wgan.py:40 | Python's `s[start:]`: a suffix of s, `len(s) - start` long (at least 0) for `start >= 0`, and `min(-start, len(s))` long for `start < 0` |
| Features.TopFeaturesZero | wgan/wgan.py:35-40 | the default `n_top_features = 0` keeps every entry (`[-0:]`) |
| Features.TopFeaturesSize | wgan/wgan.py:40 | `[-n:]` keeps `min(n, len)` entries for positive n, all for 0, and all but the -n lowest for negative n |
| Features.TopFeaturesKeepHighest | wgan/wgan.py:40 | the kept entries come from the dict, and no dropped entry has a larger count than a kept one |
| Features.TopFeaturesUnique | wgan/wgan.py:40 | the kept keys are still distinct, so `dict(…)` loses no entry |
| Features.MakeFeatureVector | wgan/wgan.py:43-58 | for a string observation: a vector of length `len(top)` with entries 0 or 1, entry idx 1 iff the idx-th key is one of its tokens; for a non-string: no vector |
| Networks.WrapperDims | wgan/wgan.py:480-482 | for a valid wrapper, the widths come from its variable lists and `cat_dims`, and there is one lower and one upper bound per continuous variable |
| Networks.DefaultSettings | wgan/wgan.py:456-475 | the keyword defaults: 15 critic steps, 1000 epochs, batch 32, test set 16, save every 100, print every 200, hidden `[128,128,128]`, noise width from the sentinel |
| Networks.Specify | wgan/wgan.py:478-488 | `d_x = d_cont + sum(cat_dims)`; the noise width is `d_x` exactly when the sentinel is passed, else the given width |
| Networks.Layers | wgan/wgan.py:529-531 | one `(in, out)` pair per `nn.Linear`: `zip([first] + hidden, hidden + [last])` |
| Networks.LayersChain | wgan/wgan.py:529-531 | `zip(d_in, d_out)` has `len(hidden)+1` layers; the first takes `first`, each output feeds the next input, and the last yields `last` |
| Networks.Forward | wgan/wgan.py:531 | the width a stack of linear layers produces from w columns, or none when some layer receives the wrong width |
| Networks.ForwardLayers | wgan/wgan.py:531 | the stack accepts exactly `first` columns and then produces `last` |
| Networks.GeneratorShape | wgan/wgan.py:521-531 | the generator maps `d_noise + d_context` columns to `d_x`; with the default noise width its input is `d_x + d_context` |
| Networks.GeneratorLayers | wgan/wgan.py:529-531 | `Generator.layers`: `len(generator_d_hidden) + 1` layers from `d_noise + d_context` to `d_cont + d_cat` |
| Networks.CriticLayers | wgan/wgan.py:584-586 | `Critic.layers`: `len(critic_d_hidden) + 1` layers from `d_x + d_context` to one score |
| Networks.CriticShape | wgan/wgan.py:581-587 | the critic maps `d_x + d_context` columns to one score |
| Networks.Transform | wgan/wgan.py:536-539 | the continuous part of a row after `_transform`: each column clamped to its bounds |
| Networks.TransformBounded | wgan/wgan.py:536-539 | every output is at most its upper bound, at least its lower bound when ordered, and an inside value is kept |
| Networks.TransformIdempotent | wgan/wgan.py:538-539 | transforming an already transformed row changes nothing |
| Training.BatchCount | wgan/wgan.py:664 | `len(DataLoader)` is the least number of batches covering the rows: zero iff there are no rows |
| Training.ScheduleOf | wgan/wgan.py:663-664 | a batch size below 1 fails (`DataLoader` raises); otherwise there are no test batches iff `test_set_size = 0`, no training batches iff every row is held out, and the other settings pass through |
| Training.Batches | wgan/wgan.py:679-707 | batch b of an epoch runs at global step `step + b` and updates the generator iff that step is a multiple of `critic_steps` |
| Training.TrainBatches | wgan/wgan.py:678-708 | the batch loop produces those events, counts exactly the critic batches in `n_batches` and advances the step by one per batch |
| Training.RunEpoch | wgan/wgan.py:676-731 | one epoch: it crashes on `step % 0`, on a zero `n_batches` in either division, or on `epoch % 0` when printing or saving is tested; otherwise it yields its batches, a report when `epoch % print_every == 0`, a save when saving and `epoch % save_every == 0`, and the new step |
| Training.TrainEpoch | wgan/wgan.py:676-731 | one epoch either completes with its batch, report and save events or crashes where a division or modulo by zero is reached |
| Training.Run | wgan/wgan.py:676 | `for epoch in range(epoch, max_epochs)`: epochs in order, the events of each appended, until one crashes |
| Training.Start | wgan/wgan.py:658-673 | epoch 0 at step 1, or the checkpoint's saved epoch and step |
| Training.Train | wgan/wgan.py:658-733 | the epoch loop from epoch 0 and step 1, or from the checkpoint's epoch and step, produces exactly the run of the schedule |
| Training.CriticCount | wgan/wgan.py:681-700 | `n_batches` after the batch loop: the batches whose step is not a multiple of `critic_steps` |
| Training.CriticCountFromStart | wgan/wgan.py:681 | from step 1, of N batches exactly `N - N / critic_steps` are critic batches |
| Training.SingleCriticStepCountsNothing | wgan/wgan.py:681 | with `critic_steps = ±1` no batch is a critic batch |
| Training.TwoBatchesHaveCriticUpdate | wgan/wgan.py:681-700 | with `critic_steps >= 2`, two or more batches include a critic batch |
| Training.NoCriticBatchCrashes | wgan/wgan.py:708 | an epoch without a critic batch ends the whole run in that epoch with `ZeroDivisionError`, which is not caught (only `KeyboardInterrupt` is) |
| Training.SingleCriticStepCrashes | wgan/wgan.py:708 | in particular `critic_steps = 1` crashes in the first epoch |
| Training.BatchStepsOfBatches | wgan/wgan.py:707 | the batches of an epoch carry consecutive steps |
| Training.EpochSteps | wgan/wgan.py:676-707 | a completed epoch advances the step by its number of training batches, with consecutive batch steps |
| Training.RunSteps | wgan/wgan.py:676-707 | over a whole run the step grows by exactly one per batch, with no gap or repetition, and a finished run ends one past the last batch |
| Training.EpochEventsWellPlaced | wgan/wgan.py:676-731 | every event of an epoch belongs to that epoch and obeys the generator, print and save conditions |
| Training.RunEventsWellPlaced | wgan/wgan.py:676-731 | every event of a run lies in `[start_epoch, max_epochs)`; reports come only at multiples of `print_every`, saves only when saving and at multiples of `save_every` |
| Training.ResumeRepeatsSavedEpoch | wgan/wgan.py:667-676 | resuming from a checkpoint saved in epoch e re-runs epoch e, starting at the saved step |
| Optimizer.Validate | wgan/wgan.py:325-332 | the constructor is accepted iff `lr >= 0`, `eps >= 0` and both betas lie in `[0, 1)`; the learning rate is checked first, then eps |
| Optimizer.ValidateBoundaries | wgan/wgan.py:323-332 | the defaults pass, `lr = 0` is treated like a positive rate, and weight decay is never checked |
| Optimizer.InitSlot | wgan/wgan.py:361-369 | new state: `step = 0`, zero moments as wide as the parameter, and a zero maximum exactly when AMSGrad is on |
| Optimizer.Decay | wgan/wgan.py:375-376 | the decayed gradient is as wide as the gradient and is the gradient itself when `weight_decay = 0` |
| Optimizer.Advance | wgan/wgan.py:374-387 | one update of a slot: `step + 1`, `exp_avg = β1·m + (1-β1)·g`, `exp_avg_sq = β2·v + (1-β2)·g²`, and the elementwise maximum with the new second moment under AMSGrad |
| Optimizer.AdvanceKeepsInvariants | wgan/wgan.py:374-387 | one update adds exactly 1 to `step`, keeps the shapes, keeps `exp_avg_sq >= 0` and `max_exp_avg_sq >= exp_avg_sq`, and never lowers the maximum |
| Optimizer.FirstAdvance | wgan/wgan.py:361-384 | the first update from fresh state leaves `step = 1`, `(1-β1)·g` and `(1-β2)·g²` |
| Optimizer.FirstSparse | wgan/wgan.py:356-357 | locates the first sparse gradient, or none |
| Optimizer.Reached | wgan/wgan.py:352-357 | how many parameters `step` gets through: all of them, or those before the first sparse gradient |
| Optimizer.UpdateSlot | wgan/wgan.py:353-387 | one parameter of the loop: no change without a dense gradient; otherwise its slot, created fresh if absent, advanced with the decayed gradient |
| Optimizer.StepState | wgan/wgan.py:352-387 | the state after the first parameters still fits their widths and holds only old or processed slots |
| Optimizer.StepGrads | wgan/wgan.py:375-376 | one gradient per parameter after the in-place decay |
| Optimizer.OAdam.constructor | wgan/wgan.py:323-335 | a validated optimizer with empty state |
| Optimizer.OAdam.Step | wgan/wgan.py:342-394 | `step` leaves the state and gradients of `StepState` and `StepGrads`, whose slots keep their bounds (`StepStateBounds`), never lower the AMSGrad maximum (`StepStateMaxGrows`) and count each processed parameter once (`StepStateCounts`); it raises iff some gradient is sparse, after updating the parameters before it |
| Optimizer.StepStateBounds | wgan/wgan.py:384-387 | every slot keeps `exp_avg_sq >= 0` and the AMSGrad maximum above it |
| Optimizer.StepStateMaxGrows | wgan/wgan.py:385-387 | across a whole `step`, no entry of a parameter's AMSGrad maximum decreases, and the maximum keeps its width |
| Optimizer.StepStateUntouched | wgan/wgan.py:353-354 | a parameter without a gradient, or one after the sparse one, keeps its state (or stays without one) |
| Optimizer.StepStateCounts | wgan/wgan.py:361-374 | every reached parameter with a gradient has `step` advanced by exactly 1, from 0 when its state is new |
| Penalties.Relu | wgan/wgan.py:632 | `relu` is non-negative and zero exactly for non-positive input |
| Penalties.GradientPenalty | wgan/wgan.py:632 | the mean exists exactly for a non-empty batch |
| Penalties.GradientPenaltyOneSided | wgan/wgan.py:632 | the penalty is non-negative and zero exactly when no gradient norm exceeds 1 |
| Penalties.Kernel | wgan/wgan.py:892 | the kernel lies in `[0, 1]` and is zero exactly when `u² >= 1` |
| Penalties.KernelShape | wgan/wgan.py:892 | the kernel is 1 at 0 and symmetric |
| Penalties.Grid | wgan/wgan.py:893 | `(x_max - x_min) * arange(20) / 20 + x_min` |
| Penalties.GridIncreasing | wgan/wgan.py:893 | the 20-point grid starts at `x_min`, is strictly increasing and stays below `x_max` |
| Penalties.StandardiseKeepsOrder | wgan/wgan.py:887 | standardising `x_min < x_max` with `std + 1e-3` keeps their order |
| Penalties.StandardiseBound | wgan/wgan.py:887 | `(x - x_mean) / (x_std + 1e-3)` for `x_min` and `x_max` |
| Penalties.Weights | wgan/wgan.py:894 | one non-negative kernel weight per sample point |
| Penalties.Normalise | wgan/wgan.py:895 | `W / (W.sum(-1) + 1e-2)` |
| Penalties.NormaliseBelowOne | wgan/wgan.py:895 | the normalised weights are non-negative and sum to less than 1 |
| Penalties.ConditionalMeans | wgan/wgan.py:894-896 | `y_mean`: per grid point, the normalised kernel weights of the samples dotted with y |
| Penalties.Dot | wgan/wgan.py:896 | `(W*y).sum(-1)` for one grid point: the sum of the products of weights and outputs |
| Penalties.Drop | wgan/wgan.py:897 | a clamped drop is non-negative and zero exactly when the scaled difference is not positive |
| Penalties.DropTerms | wgan/wgan.py:897 | `(factor * (y_mean[:-1] - y_mean[1:])).clamp_min(0)`: one clamped drop per adjacent pair of grid means, none for fewer than two |
| Penalties.Drops | wgan/wgan.py:897 | `(factor * (y_mean[:-1] - y_mean[1:])).clamp_min(0).sum()` |
| Penalties.DropsZeroIff | wgan/wgan.py:897 | the penalty is non-negative and zero exactly when no scaled adjacent drop is positive |
| Penalties.DropsZeroIffMonotone | wgan/wgan.py:897 | for a positive factor the penalty is zero exactly when the conditional means never decrease along the grid |
| Penalties.ScaledDropsIff | wgan/wgan.py:897 | for a positive factor, a scaled adjacent difference is non-positive exactly where the means do not decrease |
| Penalties.KernRegPenalty | wgan/wgan.py:890-897 | the monotonicity penalty is never negative; for a positive factor it is zero exactly when the conditional means on the 20-point grid never decrease |

## Left out

- Network forward and backward passes, dropout and the softmax of the categorical blocks (`Generator._transform`, line 541) are left out: they are tensor numerics of PyTorch. `Generator`/`Critic` appear only through their layer widths.
- Autograd in `gradient_penalty` is left out. The penalty is a reduction over given gradient norms.
- Random draws are left out: `torch.randn` noise, the `torch.multinomial` samples of `deprocess`, the `alpha` of the gradient penalty, `random_split` and `DataLoader` shuffling, and `df0.sample`.
  - `deprocess` keeps only whether sampling can succeed. Drawing n of k categories without replacement needs `1 <= n <= k`, and the zero-block shape for float-coded variables must fit.
  - The training data is reduced to its number of batches.
- `Codec.DataWrapper.Deprocess` does not compute the values of the output frame: the split of the generated tensor, the unscaling and the word mapping. The unscaling is `Bounds.Unscale`, whose round trip is proved separately. `dict(zip(…))` collapses repeated names into one column; the model keeps the zipped name list as it is.
- Codec.BlockWidth: a vocabulary variable's block is taken to be `n` columns wide even when no rows are generated; what `torch.multinomial` does with an empty batch is not modelled.
- `preprocess`, `apply_generator`, `apply_critic` and the NaN check are left out. They are pandas glue, and Dafny reals have no NaN.
- The float computations `x.mean(0)` and `x.std(0)` are modelled only in part:
  - the mean is an exact sum divided by the count;
  - the square root behind `std` is an input of the constructor, characterised by `s >= 0` and `s*s` equal to the unbiased variance.
- `Codec.DataWrapper.constructor`: every continuous and context column needs at least two rows, because the unbiased variance of one row is undefined (NaN in PyTorch). Every categorical column needs one row, because `df[v][0]` fails on an empty frame.
- A categorical column is either all strings (it gets a vocabulary) or all floats. Other label types, mixed columns and `df[v][0]` being a float in an otherwise word column are not modelled.
- Training.ScheduleOf: requires `test_set_size <= rows`, so a frame with fewer rows than the test set (16 by default) is not modelled: `random_split` is then given a negative length, and what PyTorch does with it is outside this model.
- Checkpoint I/O (`torch.load`, `torch.save`) is left out. A checkpoint is its `(epoch, step)` pair, and a save is an event.
- Printing, timing and the `KeyboardInterrupt` handler are left out. They are I/O and asynchronous interruption. The `WD_train`/`WD_test` values are not computed, only whether dividing by `n_batches` fails.
- The OAdam parameter update itself is left out: bias corrections with `beta ** step`, `sqrt` and `addcdiv_`. So are the `closure` argument and its loss.
- `__setstate__` is left out: it names an undefined `Adam`.
- `Optimizer.OAdam.Step` models a single parameter group and keys the state by parameter position.
- `compare_dfs`, `gaussian_similarity_penalty` and `monotonicity_penalty_chetverikov` are left out. They are plotting and floating-point statistics (log-densities, argsort over floats).
- `Penalties.KernRegPenalty` needs `h != 0` and explicit `x_min`/`x_max`. The source's fallback for missing bounds refers to a variable `x` that does not exist at that point.
- The tensors' float32 rounding is not modelled; all arithmetic is exact.

## Findings

| source | as written | input that shows it | evidently intended | confidence | as-written member | corrected member |
|---|---|---|---|---|---|---|
| wgan/wgan.py:226-238 | `deprocess` overwrites `self.variables["categorical"]` with the expanded list on every call, so the next call expands the already expanded names | a wrapper whose only variable is the word variable `color`, holding at least two distinct words so that two categories can be drawn without replacement (or with at most one context variable beside it), `deprocess(…, n_features=2)` called twice: the second call names `color, color1, color1, color11` for two columns, gives `color11` a vocabulary, and the final mapping loop looks up a missing column `color11` | expand the construction-time names afresh on each call, without changing the wrapper's list | not executed | Codec.SecondCallMissesColumn | Codec.OutputSchemaLabelsAllColumns |
| wgan/wgan.py:222 | the zero block appended to a float-coded variable's single draw is `torch.tensor([[0]] * (n-1) * rows)`, shaped `((n-1)*rows, 1)`, and is concatenated along the last dimension with a `(rows, 1)` draw | a float-coded categorical variable, `n_features = 3`, one or more generated rows: the block has twice as many rows as the draw, so `torch.cat` fails | a `(rows, n-1)` block of zeros, one column per filler | not executed | Codec.ZeroFillerMisaligned | Codec.ZeroFillerBlockFits |
