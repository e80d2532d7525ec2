# DeepMAsED data pipeline, modelled in Dafny

This project models the data pipeline of DeepMAsED's `dl_code/utils.py` and
proves properties of the model. DeepMAsED is a deep-learning detector of
misassembled contigs in metagenome assemblies.

- **Parsing the feature table** (`pickle_data`): a single pass over
  tab-separated rows, one row per contig position. Consecutive rows with the
  same contig id form a group. Each row is encoded as a `uint8` vector: a
  five-slot one-hot prefix for the letter, then the integer feature columns.
  At every contig boundary the finished group is either discarded (empty
  chimeric field) or stacked into one matrix. Its three labels (chimeric,
  edit distance, extensive) are emitted with it, and contig names get
  first-seen ids. `FeatureParser.PickleData` is the loop. It is proved equal
  to the state machine `Step`/`Run`/`ParseRows`, and `ParserProperties`
  proves what that machine guarantees.
- **Fold splitting** (`kfold`, `leave_one_out`): the metagenomes are
  partitioned into training and validation sides. The training contigs are
  flattened into one list and the label arrays concatenated. The methods
  `KFold` and `LeaveOneOut` are the loops of the source. They are proved
  equal to the slice-based functions `KFoldSplit` and `LeaveOneOutSplit`,
  about which the properties are proved.
- **Truncation in `load_features`**: every matrix of a metagenome is
  replaced in place by its rows `[0:max_len]` without column 0
  (`DatasetLoader.TruncateFeatures` on an array).
- **Shape logic of `normalize`**: every contig is scaled, then zero-padded
  or cut to `max_len` rows in place. The contigs are then stacked and given
  a channel axis (`Normalizer.Normalize` on an array). The scaling
  `(x - mean) / std` is the abstract per-column map `scale`.

Python semantics are written out where they matter:

- `defaultdict(int)` sends an unknown letter to slot 0.
- `astype(np.uint8)` on 64-bit integers is reduction modulo 256.
- `int(len(x) / k)` truncates toward zero, and `k == 0` raises.
- `np.concatenate` of an empty list raises.
- Negative list indices count from the end.
- A slice `[0:stop]` follows Python's clamping rules.

Exceptions are values of a `Result` type.

Quirks of the code as written, which the model keeps:

- An unrecognised letter sets slot 0 of the prefix (`defaultdict(int)`).
  Only after `load_features` drops column 0 is the visible four-slot prefix
  all zero (`DatasetLoader.TruncatedRowPrefix`).
- Labels are taken whenever none are pending. That is the first row of the
  first contig, and the second row of every later contig
  (`LabelsFromSecondRow`). A contig of a single row gets the next contig's
  labels (`SingleRowContigTakesNextLabels`).
- The row at which a group is discarded is skipped: it is neither appended
  nor named (`StepDiscards`). A single-row contig after a discard then makes
  `np.concatenate([])` fail (`DiscardThenSingleRowFails`).
- The group pending when the rows run out is never emitted, because nothing
  finalises it after the loop (`LastGroupNeverEmitted`,
  `SingleContigEmitsNothing`).
- A feature value that numpy stores as a 64-bit integer but that lies
  outside 0..255 wraps modulo 256 in `astype(np.uint8)` instead of failing.
- `kfold` does not check its fold index: an index past the last fold can
  validate on the trailing metagenomes (`KFoldPastLastFold`); otherwise an
  empty side fails at `np.concatenate`.
- `leave_one_out` raises `IndexError` at `x[idx_lo]` for `idx_lo >= n` or
  `idx_lo < -n`, but lets `-n <= idx_lo < 0` through: it then validates on
  the metagenome `n + idx_lo` from the end yet keeps it in training, since
  the loop compares list positions with the negative index
  (`LeaveOneOutNegativeIndexKeepsAll`).

## Model

| member | source | states |
|---|---|---|
| FeatureParser.LetterSlot | dl_code/utils.py:209-213 | slot is below 5; it is 0 exactly for letters other than A, C, T, G; otherwise it is the letter's position in A, C, T, G plus one |
| FeatureParser.ToByte | dl_code/utils.py:252 | the `uint8` cast: a value in 0..255 congruent to the input modulo 256, equal to it when it already fits |
| FeatureParser.EncodeRow | dl_code/utils.py:252-253 | length is 5 + number of feature columns; the letter's slot is 1 and the other four prefix slots are 0; slot 0 is 1 iff the letter is unrecognised; entry 5 + j is feature j cast to `uint8` |
| FeatureParser.ChimericLabel | dl_code/utils.py:236-239 | the label is 0 or 1, and 0 iff the field is exactly "FALSE" |
| FeatureParser.ExtensiveLabel | dl_code/utils.py:243-246 | the label is 0 or 1, and 0 iff the field is empty |
| FeatureParser.Concatenate | dl_code/utils.py:234 | `np.concatenate(feat, 0)` succeeds iff the group has a row and all rows have one width, and then yields the rows in order |
| FeatureParser.PickleData | dl_code/utils.py:186-262 | the imperative parsing loop returns exactly what the state machine `ParseRows` gives for the rows, including its errors |
| ParserProperties.InsertFresh | dl_code/utils.py:255-257 | giving a new name the next id keeps `name_to_id` a bijection onto 0 .. idx - 1 |
| ParserProperties.AppendRowKeepsNames | dl_code/utils.py:252-257 | appending a row keeps ids dense, never changes an existing id, names the row's contig, and gives a new contig the id `idx` |
| ParserProperties.StepKeepsValid | dl_code/utils.py:215-257 | one iteration keeps the four output lists parallel, labels binary, matrices non-empty and of one width, ids dense, and old ids unchanged |
| ParserProperties.RunKeepsValid | dl_code/utils.py:215-257 | the whole loop keeps that invariant and every id once given |
| ParserProperties.ParseRowsValid | dl_code/utils.py:186-262 | a successful parse yields four lists of equal length, binary labels, non-empty equal-width matrices, and ids 0 .. n - 1 given to exactly one name each |
| ParserProperties.StepWithinGroup | dl_code/utils.py:217-222 | a row of the pending contig emits nothing, is appended, is named, and fixes the labels to the pending ones or, if none are pending, its own |
| ParserProperties.StepEmits | dl_code/utils.py:224-250 | at a boundary with a non-empty chimeric field exactly one matrix (the group's rows) and one entry per label list are appended; chimeric is 0 iff "FALSE", extensive 0 iff empty, edit distance the converted field; the boundary row starts the new group with no labels pending |
| ParserProperties.StepDiscards | dl_code/utils.py:224-232 | at a boundary with an empty chimeric field nothing is emitted, the group is dropped, the boundary row is neither appended nor named, and no labels are pending |
| ParserProperties.DiscardThenSingleRowFails | dl_code/utils.py:227-234 | after a discard, a single-row contig followed by a labelled contig makes the parse fail with `np.concatenate` of an empty list |
| ParserProperties.RunAppend | dl_code/utils.py:215 | the loop over `a + b` is the loop over `a` continued over `b` |
| ParserProperties.RunPrevName | dl_code/utils.py:217-225 | after the loop, `prev_name` is the last row's contig |
| ParserProperties.PendingGroupNeverEmitted | dl_code/utils.py:224-253 | rows that continue the pending contig emit nothing and only add their encodings to the pending group |
| ParserProperties.LastGroupNeverEmitted | dl_code/utils.py:215-262 | more rows of the table's last contig change no matrix and no label: the last group is never emitted |
| ParserProperties.SingleContigEmitsNothing | dl_code/utils.py:215-262 | a table holding one contig produces no matrix and no label |
| ParserProperties.LabelsFromSecondRow | dl_code/utils.py:219-250 | a contig after an emitted group is emitted with the labels of its second row |
| ParserProperties.SingleRowContigTakesNextLabels | dl_code/utils.py:219-250 | a single-row contig after an emitted group is emitted as its one encoded row with the labels of the next contig's first row |
| Sequences.PyIndex | dl_code/utils.py:142 | Python indexing `s[i]` is defined iff -n <= i < n and reads position i or n + i |
| Sequences.SliceStop | dl_code/utils.py:52 | the end of the Python slice `[0:stop]`: at most n, and a position of the list lies before it exactly when `stop` (counted from the end when negative) keeps it |
| FoldSplitter.ValidationBounds | dl_code/utils.py:122-127 | positions a <= b <= n such that index i < n lies in a .. b - 1 iff `lower <= i < upper`, with `lower = idx_lo * int(n / k)` and `upper = lower + int(n / k)` |
| FoldSplitter.KFold | dl_code/utils.py:116-137 | the loop returns exactly `KFoldSplit`: ZeroDivision for k = 0, IndexError when y is shorter than x, an error for an empty side, else the block a .. b - 1 as validation and the rest as training, both in order |
| FoldSplitter.LeaveOneOut | dl_code/utils.py:139-153 | the loop returns exactly `LeaveOneOutSplit`: IndexError for an index outside either list or y shorter than x, an error for an empty training side, else x[idx], y[idx] and everything else in order |
| FoldSplitter.SplitByFilter | dl_code/utils.py:126-132 | keeping the indices outside (inside) `lower .. upper - 1` is cutting out (keeping) the slice a .. b - 1, for x and the first len(x) label arrays |
| FoldSplitter.KFoldByFilter | dl_code/utils.py:126-135 | `KFoldSplit` equals the loop's own test `i < lower or i >= upper` applied to every index |
| FoldSplitter.ExcludeOne | dl_code/utils.py:145-149 | skipping index `idx_lo` removes exactly that element when it is a position, else keeps everything |
| FoldSplitter.LeaveOneOutByFilter | dl_code/utils.py:142-151 | `LeaveOneOutSplit` equals the loop's own test `i == idx_lo` applied to every index |
| FoldSplitter.KFoldBlock | dl_code/utils.py:122-124 | for 0 <= idx_lo < k the validation block is exactly `idx_lo * floor(n / k)` .. `(idx_lo + 1) * floor(n / k) - 1`, within the first k * floor(n / k) <= n metagenomes, so the remainder is always training |
| FoldSplitter.KFoldPreservesContents | dl_code/utils.py:126-135 | training and validation together hold every contig and every label of the first len(x) arrays exactly once (as multisets and by count) |
| FoldSplitter.KFoldSucceeds | dl_code/utils.py:122-135 | with 2 <= k <= len(x) <= len(y) and 0 <= idx_lo < k both sides are non-empty and the split succeeds |
| FoldSplitter.KFoldSingleFoldFails | dl_code/utils.py:122-135 | with k = 1 the split fails for every idx_lo, since one side is always empty |
| FoldSplitter.KFoldTenByFive | dl_code/utils.py:122-132 | ten metagenomes, five folds, fold 2: validation is metagenomes 4 and 5, training the other eight in order |
| FoldSplitter.KFoldPastLastFold | dl_code/utils.py:122-132 | seven metagenomes, three folds, idx_lo = 3: the split succeeds and validates on metagenome 6 alone |
| FoldSplitter.LeaveOneOutHoldsOut | dl_code/utils.py:139-153 | for 0 <= idx_lo < n with n >= 2: x_val is `x[idx_lo]` unflattened and y_val is `y[idx_lo]`; training is every other metagenome in order; training and validation contigs together are all contigs once |
| FoldSplitter.LeaveOneOutNegativeIndexKeepsAll | dl_code/utils.py:142-149 | a negative idx_lo validates on `x[n + idx_lo]` while training keeps every contig |
| FoldSplitter.LeaveOneOutIsKFoldOfSingletons | dl_code/utils.py:116-153 | for 0 <= idx_lo < n with n >= 2, k-fold with k = n gives exactly the leave-one-out split |
| DatasetLoader.TruncateContig | dl_code/utils.py:96 | the kept row count is Python's `[0:max_len]` row count, and every kept row is the original row without its first column |
| DatasetLoader.TruncateFeatures | dl_code/utils.py:95-96 | every matrix of the metagenome's list is replaced in place by its truncation |
| DatasetLoader.TruncateKeepsLeadingRows | dl_code/utils.py:96 | for max_len >= 0 exactly min(rows, max_len) rows are kept, the leading ones, each without column 0 |
| DatasetLoader.TruncatedRowPrefix | dl_code/utils.py:96 | an encoded row without column 0 has a four-slot one-hot prefix for A, C, T, G, all zero for any other letter, followed by the feature bytes |
| DatasetLoader.TruncateEncoded | dl_code/utils.py:95-96 | each kept row of a truncated encoded contig is its encoded row without the slot-0 entry |
| Normalizer.Transform | dl_code/utils.py:45 | the scaled contig has the original shape, and each value is `scale` of its column and the original value |
| Normalizer.ZeroRows | dl_code/utils.py:49 | `np.zeros((count, width))`: count rows of width values, all 0 |
| Normalizer.FitContig | dl_code/utils.py:45-52 | the contig keeps the width; it has max_len rows when max_len >= 0 (else the Python slice count); rows present in the input are the scaled originals and the added rows are exactly zero |
| Normalizer.AddChannel | dl_code/utils.py:56 | the trailing channel axis: same shape, and each value v becomes `[v]` |
| Normalizer.FitAll | dl_code/utils.py:44-53 | one fitted contig per input contig |
| Normalizer.Normalize | dl_code/utils.py:36-56 | overwrites every contig in place with its fitted version and returns exactly `NormalizeSpec`: an error for an empty list or unequal row counts, else the stacked contigs with a channel axis |
| Normalizer.NormalizeShape | dl_code/utils.py:42-56 | for a non-empty list and max_len >= 0 the result has shape (contigs, max_len, width, 1), in order, holding the scaled values and then exact zeros |
| Normalizer.NormalizeMismatchNeedsNegativeMaxLen | dl_code/utils.py:47-55 | the stacking fails only when max_len is negative and cuts two contigs to different row counts |
| Normalizer.NegativeMaxLenMismatch | dl_code/utils.py:51-55 | contigs of 1 and 3 rows with max_len = -1 make the stacking fail |
| Normalizer.FitContigPads | dl_code/utils.py:47-50 | a contig of at most max_len rows loses nothing: all its scaled rows, then max_len - rows zero rows |
| Normalizer.FitContigCuts | dl_code/utils.py:45-52 | for a contig of at least max_len >= 0 rows, fitting is scaling its first max_len rows |

## Left out

- Reading the table: `gzip.open`, `csv.reader` and the header lookup of the label columns (dl_code/utils.py:197-204). Rows arrive already split into the `Row` datatype, and the label columns are its fields.
- Row-level failures of the table: a field that `int()` rejects, or a row too short for the label columns. Features arrive as integers, and every row has its fields.
- FeatureParser.PickleData: `float(tgt_ed)` is the parameter `toFloat`, because float parsing is not modelled. A failure is the `BadFloat` error.
- The `tgt_edit = None` assignment on a discard sets an unused name and has no effect. `tgt_ed` is always recaptured together with `tgt`.
- `pickle.dump`, `pickle.load` and the printed count of processed labels: serialisation and output only.
- `os.listdir` and `os.path.exists` discovery in `load_features`, and its mode selection (dl_code/utils.py:75-112). The mode code depends on unpickled data, leaves `ye` empty for "edit", and raises a `TypeError` for other modes. Only the truncation loop of `load_features` is modelled.
- `compute_mean_std` and the arithmetic of `(x - mean) / std`: floating-point sums, division and `np.sqrt`.
- Normalizer.Normalize: the leading axis that `np.expand_dims(x[i], 0)` gives each overwritten contig is left implicit.
- Normalizer.Normalize: requires every row of every contig to have the width `x[0].shape[1]`. Broadcasting and `np.concatenate` errors for mismatched widths are not modelled.
- FoldSplitter.KFold: `len(x) / k` is computed exactly. Floating-point rounding of the true division for very large lists is not modelled.
- FeatureParser.ToByte: wraps every integer modulo 256. For an integer numpy cannot store in 64 bits, `np.array` builds an object array and `astype(np.uint8)` raises instead; that failure is not modelled, since features are unbounded integers here.
- Fixed-width integers: ids and counters are unbounded integers, and int64 overflow is not modelled.
- The unreachable code after `return` in `leave_one_out` (dl_code/utils.py:155-184).
- The Keras metrics `class_recall` and `explained_var`: float tensor code.
- DeepMAsED/Commands/Predict.py: command-line parsing that only forwards to the prediction entry point.
