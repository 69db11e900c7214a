# Scoring service model

A Dafny model of the column-level logic of a small model-scoring web
service. A POST to `/predict` carries a batch of records. The service:

- checks that the batch has ten required columns;
- cleans the currency column `x12` and the percentage column `x63`;
- splits the numeric columns into informative and structurally empty ones;
- imputes and standardises the informative ones;
- one-hot encodes the four categorical columns `x5`, `x31`, `x81` and `x82`;
- aligns the result with the model's 25-feature schema;
- scores it;
- labels each row "Event" or "Non-Event" at the cut-off 0.75;
- answers with the caller's columns, sorted by name, followed by `phat` and `business_outcome`.

Modules:

- `Strings` (`strings.dfy`) covers character deletion and replacement, Python's `str` ordering, and `join` with `split`.
- `Decimal` (`decimal.dfy`) is an exact decimal parse of the cleaned texts, into `real`.
- `Frames` (`frames.dfy`) is the data-frame model:
  - A frame is a row count plus an ordered sequence of named columns.
  - Names may repeat, and lookup finds the first column of a name.
  - The module provides `df[name] = vals`, `drop`, column selection, `pd.concat(axis=1)`, and the mutable `DataFrame` class the in-place operations work on.
- `FeatureEngineering` (`feature_engineering.dfy`) covers `data_cleanup`, `imputation_and_standardization`, `create_dummies`, `fill_missing_data` and `feature_preprocessing`.
- `PredictionsAndPostprocessing` (`postprocessing.dfy`) covers `predictions`, `postprocessing` and `postprocessed_predictions`.
- `App` (`app.py`'s `return_predictions`, in `app.dfy`) covers the request gate and its responses.

The in-place operations are methods on `DataFrame`. These are `data_cleanup`, the loop of `fill_missing_data`, and the `.loc` labelling and `sort_index` of `postprocessing`. Each ensures states the new state as a function of the old one. The rest of the core is expression code and is modelled as functions. The properties are lemmas about those functions.

Points of the code worth knowing:

- Line 39 of `feature_engineering.py` standardises the structurally empty columns too.
- The gate does not check `x63` or `x82`, although the pipeline needs both. `App.GateDoesNotImplySuccess` exhibits a batch that passes the gate and then fails.
- The `.str` accessor at lines 16 and 17 raises on a column that holds no text, such as an all-null or all-number `x12`. `App.AdmittedWithoutTextX12Fails` shows an admitted batch failing that way.
- The mean imputer at line 36 raises on a text cell that does not read as a number, in any column left after the drop, and on an input with no row or no column. The gate lets such columns through. The model's reading of "text" is given under "## Left out".
- A column that is falsy throughout without being NaN throughout makes line 36 raise. An all-zero column is an example, and so is a one-row batch with a zero in a numeric column. `FeatureEngineering.FalsyColumnFails` shows this.
- The 25-name schema holds no `<column>_nan` name.

## Model

| member | source | states |
|---|---|---|
| `Strings.DeleteCharSpec` | model-api/application/feature_engineering.py:16-17 | `str.replace(c, '')` leaves no `c`, keeps every other character that was there, and does not lengthen the text |
| `Strings.ReplaceChar` | model-api/application/feature_engineering.py:16 | `str.replace('(', '-')` keeps the length and changes exactly the positions holding `(` |
| `Strings.LeTotal` | model-api/application/predictions_and_postprocessing.py:29 | Python's string order, used to sort column names and categories, relates any two texts |
| `Strings.LeAntisymmetric` | model-api/application/predictions_and_postprocessing.py:29 | two texts each no greater than the other are equal |
| `Strings.LeTransitive` | model-api/application/predictions_and_postprocessing.py:29 | the string order is transitive |
| `Strings.SplitJoin` | model-api/application/app.py:10 | `','.join` of names that hold no comma is undone by splitting on `,` |
| `Decimal.NegatedParse` | model-api/application/feature_engineering.py:16 | `astype(float)` of `-d` is the negation of the amount `d` |
| `Decimal.UnsignedParse` | model-api/application/feature_engineering.py:16-17 | a text without a sign parses as the unsigned amount it denotes |
| `Decimal.DigitsParse` | model-api/application/feature_engineering.py:16-17 | a plain run of digits parses as the integer it denotes |
| `Decimal.UnsignedCharacters` | model-api/application/feature_engineering.py:16-17 | an unsigned amount that parses holds only digits and `.` and is not empty |
| `Frames.AssignedLookup` | model-api/application/feature_engineering.py:70 | after `df[name] = vals`, `df[name]` reads `vals`, other columns read as before, and the names gain `name` at the end only when it was new |
| `Frames.DataFrame.Assign` | model-api/application/feature_engineering.py:70 | in-place `df[name] = vals` changes the columns to exactly that update and keeps the row count |
| `Frames.DataFrame.constructor` | model-api/application/feature_engineering.py:111 | a deep copy holds exactly the copied frame |
| `Frames.FilterMembers` | model-api/application/feature_engineering.py:33-34 | `df.loc[:, mask]` keeps exactly the columns that satisfy the mask |
| `Frames.FilterIsSubsequence` | model-api/application/feature_engineering.py:33-34 | the selected columns keep their relative order |
| `Frames.FilterSplit` | model-api/application/feature_engineering.py:33-34 | a mask and its negation split the columns with nothing lost and nothing duplicated |
| `Frames.FilterCountMonotone` | model-api/application/feature_engineering.py:36 | a weaker mask keeps at least as many columns, and exactly as many only when no column tells the two apart |
| `Frames.WithoutMembers` | model-api/application/feature_engineering.py:32 | `drop(columns=names)` keeps exactly the columns whose name is not listed |
| `Frames.FirstAbsent` | model-api/application/feature_engineering.py:32 | the reported missing name is listed and absent |
| `Frames.ConcatSameHeight` | model-api/application/predictions_and_postprocessing.py:30 | `pd.concat(axis=1)` of two frames with the same rows keeps every column of both, in order, and the row count |
| `Frames.ConcatWellFormed` | model-api/application/feature_engineering.py:37 | the concatenation has the taller frame's row count and the columns of both frames in order, names kept; each row reads the original's value, or NaN where the original has no such row |
| `FeatureEngineering.CurrencyTextIsOnePass` | model-api/application/feature_engineering.py:16 | the four chained replacements act character by character: `$`, `,` and `)` vanish, `(` becomes `-`, all else stays |
| `FeatureEngineering.CurrencyTextClean` | model-api/application/feature_engineering.py:16 | a cleaned `x12` text holds none of `$`, `,`, `(` and `)` |
| `FeatureEngineering.CurrencyTextUnchanged` | model-api/application/feature_engineering.py:16 | a text without those four characters is left unchanged |
| `FeatureEngineering.ParenthesisedRewrite` | model-api/application/feature_engineering.py:16 | an accounting negative `(d)` rewrites to `-d` |
| `FeatureEngineering.UnparenthesisedRewrite` | model-api/application/feature_engineering.py:16 | a text without parentheses only loses its `$` and `,` |
| `FeatureEngineering.ParenthesisedAmountNegates` | model-api/application/feature_engineering.py:16 | `(d)` reads as the negation of the amount `d` |
| `FeatureEngineering.PercentKeepsMagnitude` | model-api/application/feature_engineering.py:17 | `d%` rewrites to `d` and reads as `d`, not `d / 100` |
| `FeatureEngineering.ParseColumn` | model-api/application/feature_engineering.py:16-17 | the cells convert if and only if every cell converts; then each keeps its position and holds its converted value; otherwise the error is some cell's |
| `FeatureEngineering.CleanColumnOutcome` | model-api/application/feature_engineering.py:16-17 | cleaning a column succeeds if and only if it exists, holds some text and every cell converts; otherwise the KeyError, the accessor's error or a cell's parse error, in that order |
| `FeatureEngineering.CleanColumnFrame` | model-api/application/feature_engineering.py:16-17 | the overwritten column holds the converted cells; the names, the row count and every other column's values stay |
| `FeatureEngineering.CleanupFrame` | model-api/application/feature_engineering.py:14-19 | after cleanup `x12` and `x63` hold their converted values (both present and holding text); the names, the row count and every other column stay |
| `FeatureEngineering.DataCleanup` | model-api/application/feature_engineering.py:7-19 | the argument is overwritten in place, also when `x63` fails after `x12` was rewritten; the outcome is the pure cleanup's, error included |
| `FeatureEngineering.DropRemovesListed` | model-api/application/feature_engineering.py:32 | `drop` succeeds if and only if every listed column exists; afterwards no listed column remains, every other column stays in order; otherwise the KeyError names a listed, absent column |
| `FeatureEngineering.PartitionExact` | model-api/application/feature_engineering.py:33-34 | the empty and informative columns are disjoint, make up exactly the remaining columns with multiplicity, keep their order, and are the columns without and with a truthy value |
| `FeatureEngineering.ImputationColumnOrder` | model-api/application/feature_engineering.py:35-40 | the result is the informative columns followed by the empty ones, one value per row |
| `FeatureEngineering.ShapeMismatchExactly` | model-api/application/feature_engineering.py:35-36 | after the drop the step fails with the imputer's non-numeric ValueError if and only if a remaining column holds text, and otherwise with its empty-input ValueError if and only if no row or no column is left; with neither it fails if and only if some column is falsy throughout without being NaN throughout, and then with the width mismatch |
| `FeatureEngineering.SortedUniqueSpec` | model-api/application/feature_engineering.py:54-55 | the categories are strictly ascending and are exactly the observed values, the first no greater than any of them |
| `FeatureEngineering.TextsOf` | model-api/application/feature_engineering.py:54-55 | the category candidates are exactly the texts occurring in the column |
| `FeatureEngineering.DummiesPrefixed` | model-api/application/feature_engineering.py:53-55 | every indicator column is named `<column>_<suffix>` |
| `FeatureEngineering.DummiesEmpty` | model-api/application/feature_engineering.py:54-55 | a column yields no indicators if and only if it holds no category |
| `FeatureEngineering.DropFirstWithNaIndicator` | model-api/application/feature_engineering.py:54-55 | the lowest category gets no indicator, every other one gets `<column>_<category>` holding its indicator, and `<column>_nan` is emitted whenever the column holds a category |
| `FeatureEngineering.FirstCategoryUnnamed` | model-api/application/feature_engineering.py:54 | no output column is named after the dropped first category |
| `FeatureEngineering.AllDummiesSpec` | model-api/application/feature_engineering.py:54-55 | the indicator columns are exactly those of the listed columns |
| `FeatureEngineering.CreateDummiesPassThrough` | model-api/application/feature_engineering.py:42-56 | unencoded columns pass through unchanged and in order at the front, every indicator appears, and the row count stays |
| `FeatureEngineering.CreateDummiesRemovesEncoded` | model-api/application/feature_engineering.py:53-55 | when no encoded name holds `_`, no output column bears an encoded name |
| `FeatureEngineering.CreateDummiesWellFormed` | model-api/application/feature_engineering.py:54-55 | every output column has one value per row |
| `FeatureEngineering.ZeroFillSpec` | model-api/application/feature_engineering.py:68-70 | after the loop every listed name is present, present columns read as before, absent listed names read zeros, rows are kept |
| `FeatureEngineering.FillThenProjectIsAlign` | model-api/application/feature_engineering.py:71 | projecting the zero-filled frame on the list is the schema alignment |
| `FeatureEngineering.FillMissingData` | model-api/application/feature_engineering.py:58-71 | the loop leaves its argument zero-filled in place and the result is the schema alignment |
| `FeatureEngineering.AlignSchema` | model-api/application/feature_engineering.py:68-71 | the aligned frame has exactly the listed columns in list order; each reads the input's values if present and zeros otherwise; extras are gone |
| `FeatureEngineering.AlignIdempotent` | model-api/application/feature_engineering.py:68-71 | aligning an aligned frame again changes nothing |
| `FeatureEngineering.FillMissingDataIdempotent` | model-api/application/feature_engineering.py:68-71 | running the fill on its own zero-filled output gives the same result |
| `FeatureEngineering.SelectColumnsSchema` | model-api/application/feature_engineering.py:114 | selecting `data[[...]]` gives exactly the asked-for columns in order, with their values and the row count |
| `FeatureEngineering.FillFresh` | model-api/application/feature_engineering.py:116 | filling a frame nobody else holds returns the schema alignment of it |
| `FeatureEngineering.FeaturePreprocessing` | model-api/application/feature_engineering.py:74-117 | works on a copy and leaves the caller's frame untouched; the result is the composed transformation |
| `FeatureEngineering.PreprocessSchema` | model-api/application/feature_engineering.py:86-117 | a successful result has exactly the 25 selected features in schema order and one row per input row |
| `FeatureEngineering.MissingX63Fails` | model-api/application/feature_engineering.py:17 | a batch without `x63` fails with KeyError('x63') |
| `FeatureEngineering.MissingX82Fails` | model-api/application/feature_engineering.py:32 | a batch that cleans and lacks `x82`, but has the other three categorical columns, fails at the `drop` with KeyError('x82') |
| `FeatureEngineering.FalsyColumnFails` | model-api/application/feature_engineering.py:33-36 | a column that is falsy throughout but not NaN throughout makes the batch fail, with the width mismatch when the batch has rows and no column left for imputation holds text, otherwise with one of the imputer's ValueErrors |
| `PredictionsAndPostprocessing.Predictions` | model-api/application/predictions_and_postprocessing.py:13 | a single column named `phat` with one probability per row |
| `PredictionsAndPostprocessing.LabelledSpec` | model-api/application/predictions_and_postprocessing.py:27-28 | each row is "Event" at or above 0.75 and "Non-Event" below; a NaN `phat` leaves the row unlabelled; other columns and the rows are kept |
| `PredictionsAndPostprocessing.LocSetSpec` | model-api/application/predictions_and_postprocessing.py:27-28 | one `df.loc[mask, name] = v` sets the masked rows of `name` to `v`, keeps its other rows (NaN when the column is new), and keeps every other column and the rows |
| `PredictionsAndPostprocessing.ThresholdLaw` | model-api/application/predictions_and_postprocessing.py:27-28 | every scored row gets "Event" exactly when its probability is at least 0.75, the boundary included |
| `PredictionsAndPostprocessing.InsertByNamePermutes` | model-api/application/predictions_and_postprocessing.py:29 | inserting a column into the sorted prefix adds it and loses nothing |
| `PredictionsAndPostprocessing.InsertByNameSorted` | model-api/application/predictions_and_postprocessing.py:29 | inserting a column into a name-sorted list keeps it sorted |
| `PredictionsAndPostprocessing.SortByNameSpec` | model-api/application/predictions_and_postprocessing.py:29 | the sorted columns are in ascending name order and a permutation of the input columns |
| `PredictionsAndPostprocessing.SortKeepsNames` | model-api/application/predictions_and_postprocessing.py:29 | sorting keeps the set of names and the number of columns |
| `PredictionsAndPostprocessing.Postprocessing` | model-api/application/predictions_and_postprocessing.py:16-31 | labels the predictions in place, sorts the caller's columns in place, returns their concatenation; a missing `phat` raises before any change |
| `PredictionsAndPostprocessing.PostprocessedPredictions` | model-api/application/predictions_and_postprocessing.py:33-46 | predict then postprocess; the caller's frame ends up sorted by name |
| `PredictionsAndPostprocessing.PostprocessColumns` | model-api/application/predictions_and_postprocessing.py:29-31 | the response is the caller's columns, sorted and otherwise unchanged, then `phat` and `business_outcome`, one row per input row |
| `App.NonJsonRejected` | model-api/application/app.py:24-25 | a request whose Content-Type is not JSON gets 415 "Not Valid JSON" |
| `App.MissingColumnRejected` | model-api/application/app.py:17-23 | a batch missing any required column gets 415 with the invalid-data message |
| `App.DroppingRequiredColumnRejected` | model-api/application/app.py:17-23 | removing any one required column from an admitted batch gets it refused |
| `App.ExtraColumnsAccepted` | model-api/application/app.py:17 | the gate is a subset test: extra columns never cause a 415 |
| `App.InvalidDataMessageLists` | model-api/application/app.py:9-11 | the message is the prefix, then the ten required names joined by `,` in declaration order inside `[...]` |
| `App.SuccessIsPostprocessedPredictions` | model-api/application/app.py:17-21 | an admitted batch that preprocesses gets exactly the postprocessed predictions of its preprocessed form |
| `App.AdmittedWithoutX63Fails` | model-api/application/app.py:17-21 | every admitted batch without `x63` whose `x12` cleans is answered with the KeyError('x63') from the pipeline, never with a 415 |
| `App.AdmittedWithoutTextX12Fails` | model-api/application/feature_engineering.py:16 | an admitted batch whose `x12` holds no text is answered with the accessor's error from cleanup, not with a 415 |
| `App.GateOnlyBatchPasses` | model-api/application/app.py:17 | the batch of exactly the ten required columns, with `x12` holding "$1" and NaN elsewhere, passes the gate, lacks `x63`, and its `x12` cleans |
| `App.GateDoesNotImplySuccess` | model-api/application/app.py:17-18 | that batch passes the gate and then fails with KeyError('x63') |

## Left out

- The values computed by mean imputation and z-score standardisation (sklearn's `SimpleImputer` and `StandardScaler`) are left abstract. They are floating-point numerics. They are a parameter `Numerics` of per-column, per-row functions. The model keeps the column bookkeeping around them.
- The fitted model's `predict` (a statsmodels logit) is a parameter `Model` returning one probability per row. Loading it from a pickle is not modelled.
- Flask routing, `request.json`, `pd.read_json` and `to_json` are framework I/O and are not modelled. `request.is_json` tests the Content-Type header, so a request either has a non-JSON Content-Type or carries a frame already read. A malformed body sent as JSON makes `request.json` answer 400; that answer is not modelled. The response body is the frame before serialisation. The `/status` route is not modelled.
- Floating point is not modelled. `astype(float)` is an exact decimal parse into `real`: an optional sign, digits, and at most one point. Texts that Python's float parser also accepts, such as exponents, `inf`, `nan` and surrounding spaces, are parse errors in the model.
- Column dtypes are not read from the JSON. A column is taken to be of string dtype, so that `.str` works, exactly when it holds a text cell. A non-text value in such a column becomes NaN, as pandas' string methods give it.
- Numeric values in an encoded column are not read as categories. Their indicator rows count as missing.
- Column dtypes are not modelled. Indicators and zero fills are the numbers 0 and 1.
- `FeatureEngineering.Preprocess` fixes `one_hot_columns` and `non_imputed_columns` at their defaults, the only values the service passes. `CreateDummies` and `ImputationAndStandardization` take any list.
- `FeatureEngineering.ImputationAndStandardization` assumes the imputer drops exactly the all-NaN columns and keeps the others in order, as it does with its defaults. It refuses every text cell as non-numeric, including a text such as "1.5" that sklearn's float conversion would accept. The messages of the imputer's errors are not modelled.
- `PredictionsAndPostprocessing.Postprocessing` requires two distinct frames. The caller always passes distinct frames, and aliasing is not modelled.
- A `phat` that is not a number would make pandas raise on the comparison. The model leaves such rows unlabelled, like NaN.
- The model's `sort_index` is stable. Pandas' default sort does not promise an order among columns that share a name.
- Row indexes are positions 0 to height-1. `pd.concat(axis=1)` aligns on them and pads with NaN.
- Column-name lookups use the first column of a name. The `df[name]` of a frame with duplicate names (a frame, not a column) is not modelled.
- The HTTP test script `model-api/test_set.py` is not modelled. The properties it checks appear above as lemmas.
