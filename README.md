# Water-quality pipeline: a verified model of its row-level rules

The pipeline has three batch scripts. It scrapes Hawaii Department of Health
water samples and enriches them with Dark Sky weather (stage A). It derives a
safe/unsafe label and a month feature (stage B). It then splits, balances and
scores a classifier (stage C). This project models, in Dafny, the
deterministic rules underneath those scripts.

A table is a sequence of rows. A row maps column names to cells, and a cell is
a number (`real`), pandas' missing value, or text. `df[mask]` is `Frames.Where`:
the rows the mask accepts, in order. Column assignment `df[c] = v` is the method
`SetColumn` of the class `Frames.DataFrame`, which updates its rows in place.
The steps that loop in the source are methods with loop invariants, each
proved against a specification function.

The modules follow the scripts:

- `Frames`: tables, selection, column assignment.
- `Cleaning`: `feasible`, `no_nans` and the bounding box of stage A.
- `Weather`: `lists_for_darksky_api`, `query_darksky`, `add_list_to_df`, and
  their composition in stage A's `main`.
- `PrepareForMl`: `categorize` and the month step of
  `convert_month_to_continuous`.
- `WaterQualityMl`: `train_test_split`, `undersample` and
  `calculate_accuracy`.

Randomness and I/O become parameters:

- The shuffle of `df.sample(frac=1)` is a permutation `perm` of the row
  positions.
- The draw of `np.random.choice(..., replace=False)` is a list `choice` of
  distinct indices into the label-0 rows.
- The HTTP request plus JSON decoding is a function `fetch` from the request
  URL to the first `daily.data` entry, or `None`.
- Python's `str` of a cell and of a list are the functions `show` and
  `listText`.
- The classifier's predictions are an argument of `calculate_accuracy`.

Behaviour of the code worth noting:

- The weather query reads nine fields, not ten. `cloudCover_1` is returned but
  never filled.
- A date without a month token raises `IndexError` in `re.findall(...)[0]`. The
  row is not dropped. The later finiteness filter drops nothing.
- Columns are assigned to the frame in place.

Consequence of the empty cloud-cover list: `add_list_to_df` raises `ValueError`
on its tenth list for any non-empty table. `Weather.EnrichWithWeather` states
this.

## Model

| member | source | states |
|---|---|---|
| Frames.Where | 1_webscraping_depthealth.py:55 | `df[mask]` keeps a row iff it is in the input and the mask accepts it, and never grows the table |
| Frames.IsFinite | 1_webscraping_depthealth.py:49 | `np.isfinite` is false on the missing value and true on every number |
| Frames.Column | 1_webscraping_depthealth.py:65-68 | `df[c]` has one entry per row, the n-th being row n's value of `c` |
| Frames.WithColumn | 2_waterquality_prepareforML.py:19 | `df[c] = values` keeps the row count (its effect on each row is `WithColumnEffect`) |
| Frames.WithColumnEffect | 2_waterquality_prepareforML.py:19 | after `df[c] = values` every row gains (or overwrites) `c` with its own value; no other column changes |
| Frames.WithColumnTwice | 2_waterquality_prepareforML.py:28-29 | assigning a column twice leaves exactly the second assignment's values |
| Frames.WhereIsSubsequence | 1_webscraping_depthealth.py:55 | `df[mask]` is the input's rows at exactly the accepted positions, in ascending order, unchanged |
| Frames.WhereThenWhere | 1_webscraping_depthealth.py:48-49 | two selections in a row equal one selection by the conjunction of the masks |
| Frames.DataFrame.SetColumn | 2_waterquality_prepareforML.py:19 | on a frame with rows, `df[c] = values` fails iff the length differs from the row count; otherwise the row count stays the same, every row gains or overwrites `c` with its value, and every other column is unchanged |
| Cleaning.Feasible | 1_webscraping_depthealth.py:53-56 | keeps a row iff its value is a number strictly between the bounds; the result is still a numeric column |
| Cleaning.Between | 1_webscraping_depthealth.py:55 | the mask accepts only rows with a number in the column; a missing value and either bound are rejected |
| Cleaning.FeasibleKeepsOrder | 1_webscraping_depthealth.py:55 | the kept positions are exactly those inside the open interval, strictly increasing, and the result is the input at those positions |
| Cleaning.FeasibleDropsEndpoints | 1_webscraping_depthealth.py:55 | for any table, column and bounds, a row whose value equals either bound is removed: both comparisons are strict |
| Cleaning.BoundingBox | 1_webscraping_depthealth.py:140-142 | every surviving row is an input row with latitude in (21, 22), longitude in (-159, -157) and timestamp in (946651738, 1514731738) |
| Cleaning.BoundingBoxIsOneSelection | 1_webscraping_depthealth.py:140-142 | the three chained filters equal one order-preserving selection by the whole box, so a row survives iff it is inside all three intervals |
| Cleaning.NoNans | 1_webscraping_depthealth.py:46-51 | the loop of selections keeps a row iff every listed column is present and finite in it, in the input order |
| Weather.ListsForDarkskyApi | 1_webscraping_depthealth.py:58-69 | three lists of length `len(df)` whose i-th elements are row i's timestamp, latitude and longitude |
| Weather.Request | 1_webscraping_depthealth.py:93-102 | the request is the endpoint, then the key, then "latitude,longitude,date" |
| Weather.Requests | 1_webscraping_depthealth.py:89-102 | one request per row, built from that row's date, latitude and longitude |
| Weather.RequestKeyIsNotDelimited | 1_webscraping_depthealth.py:93-102 | the request is the endpoint, key, `lat,long,date` with nothing between key and latitude, so two different keys can yield the same URL |
| Weather.FirstMissing | 1_webscraping_depthealth.py:106-114 | the first of the read fields absent from the answer, which is where the KeyError is raised |
| Weather.Complete | 1_webscraping_depthealth.py:104-114 | an answer is read without error iff it has a daily entry holding all nine fields |
| Weather.RowError | 1_webscraping_depthealth.py:104-114 | the error of an incomplete answer names its row; it is the missing-entry error iff there is no daily entry, otherwise it names an absent field with every earlier-read field present |
| Weather.QueryDarksky | 1_webscraping_depthealth.py:71-116 | succeeds iff every row's answer has a daily entry with all nine fields; then returns ten lists, nine of length `len(date_list)` whose n-th element is that field of the n-th answer and an empty tenth; otherwise reports the first failing row and its missing field |
| Weather.ColumnsAdded | 1_webscraping_depthealth.py:118-123 | adding the lists keeps the row count |
| Weather.ColumnsAddedEffect | 1_webscraping_depthealth.py:120-123 | adding the lists adds exactly their `str` names as columns, leaves every other column unchanged, and gives a list whose name no later list reuses its values row by row |
| Weather.AddListToDf | 1_webscraping_depthealth.py:118-123 | on a frame with rows, succeeds iff every list has one value per row; otherwise reports the first list of the wrong length, with the lists before it already added |
| Weather.EnrichWithWeather | 1_webscraping_depthealth.py:145-152 | the enrichment of stage A succeeds iff the table is empty, and then leaves it unchanged; it fails in the query iff some row's answer is incomplete, then at the first such row with that row's error and with the table unchanged; with all answers complete it fails at the tenth (cloud-cover) list, after adding the nine weather columns, column k holding field k of each row's answer; a length failure is only ever at the tenth list |
| PrepareForMl.SafetyLabel | 2_waterquality_prepareforML.py:13-18 | the label is 0 or 1, and 1 iff Ent Results >= 130 and CP Result >= 2 (a missing value compares false) |
| PrepareForMl.SafetyLabelExamples | 2_waterquality_prepareforML.py:13-18 | (130, 2) gives 1; (129, 5), (500, 1) and a missing Ent value give 0 |
| PrepareForMl.Labels | 2_waterquality_prepareforML.py:11-18 | one label per row |
| PrepareForMl.Categorize | 2_waterquality_prepareforML.py:9-20 | the frame afterwards is the old rows with the label column assigned from the per-row labels in row order |
| PrepareForMl.CategorizedFrame | 2_waterquality_prepareforML.py:11-19 | after `categorize` the row count is the same, each row gains only the label column, the label is 0 or 1 and 1 iff both thresholds hold, and other columns are unchanged |
| PrepareForMl.DigitRunEnd | 2_waterquality_prepareforML.py:27 | the end of the maximal run of digits at a position |
| PrepareForMl.FirstMatchFrom | 2_waterquality_prepareforML.py:27 | a reported span is a match of `(\d+)/` at or after the start |
| PrepareForMl.FirstMatchFromIsFirst | 2_waterquality_prepareforML.py:27 | the search reports the leftmost match and reports none only when no position matches |
| PrepareForMl.MonthToken | 2_waterquality_prepareforML.py:27 | `re.findall(r"(\d+)/", x)[0]` gives a token iff some run of digits is followed by `/`, and a token is a non-empty digit string |
| PrepareForMl.MonthTokenIsFirstMaximalRun | 2_waterquality_prepareforML.py:27 | no token iff no run of digits is followed by `/`; otherwise the token is the first maximal digit run immediately followed by `/` |
| PrepareForMl.MonthOfUsDate | 2_waterquality_prepareforML.py:27 | for a date "MM/..." the token is MM |
| PrepareForMl.MonthThirteenIsKept | 2_waterquality_prepareforML.py:27-29 | "13/01/2020" yields month 13: the month is not range-checked |
| PrepareForMl.DigitsValue | 2_waterquality_prepareforML.py:29 | `pd.to_numeric` of a one- or two-digit month token is its decimal value |
| PrepareForMl.MonthOf | 2_waterquality_prepareforML.py:27-29 | a Date cell yields a month iff it is text holding a token; otherwise the error names the row and is the TypeError iff the cell is not text; a month is a non-negative whole number |
| PrepareForMl.Months | 2_waterquality_prepareforML.py:26-29 | one month per row |
| PrepareForMl.MonthTokens | 2_waterquality_prepareforML.py:25-27 | the token loop succeeds iff every Date has a token; otherwise it stops at the first row without one (non-text or no match); token j is exactly `re.findall(r"(\d+)/", x)[0]` of row j's Date (its `MonthToken`), is digits, and gives that row's month |
| PrepareForMl.ConvertMonth | 2_waterquality_prepareforML.py:22-30 | the month step fails iff some Date has no token, leaving the frame unchanged; otherwise the Month column holds each row's numeric month and the result is the rows whose Month is finite |
| PrepareForMl.MonthFilterKeepsEveryRow | 2_waterquality_prepareforML.py:28-30 | every Month is a non-negative number, so the finiteness filter keeps every row in order |
| WaterQualityMl.SliceBound | 3_waterquality_ML.py:16-17 | a Python slice bound lies within the table and equals the index when it is already in range |
| WaterQualityMl.Truncate | 3_waterquality_ML.py:11 | `int()` truncates toward zero: the result has the sign of its argument and lies within one of it, never beyond it |
| WaterQualityMl.Cut | 3_waterquality_ML.py:11-17 | the cut lies within the table; for a fraction between 0 and 1 it is the floor of n times the fraction (exact product), and 1 or more cuts after the last row |
| WaterQualityMl.PermutedMultiset | 3_waterquality_ML.py:15 | shuffling by a permutation keeps every row, as many times as before |
| WaterQualityMl.TrainTestSplit | 3_waterquality_ML.py:8-20 | train followed by test is the shuffled table; for a fraction in [0, 1], train has floor(n * p) rows and test the rest |
| WaterQualityMl.SplitIsPartition | 3_waterquality_ML.py:15-17 | train and test together hold exactly the input's rows, and each input position lands in exactly one of them |
| WaterQualityMl.MajorityPositions | 3_waterquality_ML.py:30 | the label-0 positions: as many as label-0 rows, each a label-0 row, ascending |
| WaterQualityMl.Minority | 3_waterquality_ML.py:25-27 | the minority sample holds exactly the input rows labelled 1 and never more rows than the input |
| WaterQualityMl.Drawn | 3_waterquality_ML.py:32-33 | one drawn row per draw, each a label-0 row |
| WaterQualityMl.DrawnAreDistinctRows | 3_waterquality_ML.py:32-33 | distinct draws pick distinct label-0 positions, and the k-th drawn row is the input row at the k-th drawn position |
| WaterQualityMl.Undersample | 3_waterquality_ML.py:22-38 | fails iff there are more label-1 than label-0 rows (sampling without replacement raises); otherwise returns all label-1 rows in order followed by the drawn label-0 rows, 2 * minorityN rows in all |
| WaterQualityMl.UndersampleBalances | 3_waterquality_ML.py:25-37 | the balanced table's label-1 rows are exactly the input's, and it holds as many label-0 rows |
| WaterQualityMl.TallyIdentities | 3_waterquality_ML.py:71-78 | correct + misclassification is the number of pairs; with 0/1 predictions TP + FN and FP + TN count the label-1 and label-0 labels; with 0/1 labels predicted-yes is TP + FP |
| WaterQualityMl.CountOfColumn | 3_waterquality_ML.py:61-62 | counting the labels of the column counts the rows selected by `testdf[cat] == v` |
| WaterQualityMl.CountOne | 3_waterquality_ML.py:72-78 | one pass adds one to correct or misclassification, one to exactly one confusion cell for 0/1 pairs, and one to predicted-yes iff the prediction is 1 |
| WaterQualityMl.Tally | 3_waterquality_ML.py:71-78 | after the loop, correct + misclassification is the number of pairs, and true + false positives never exceed the predicted yeses, which never exceed the pairs |
| WaterQualityMl.ConfusionIdentities | 3_waterquality_ML.py:61-78 | the same identities stated against `numyes` and `numno` as the source computes them |
| WaterQualityMl.Ratios | 3_waterquality_ML.py:79-85 | the ratios are defined iff numtest, numyes, numno and predicted_yes are all non-zero; the error names the first zero denominator in print order; each ratio times its denominator is its numerator |
| WaterQualityMl.RatiosComplement | 3_waterquality_ML.py:79-83 | accuracy + error rate = 1 and false-positive rate + specificity = 1 |
| WaterQualityMl.CalculateAccuracy | 3_waterquality_ML.py:58-85 | the counting loop yields numyes, numno and the seven counters of the whole test set, correct + misclassification = numtest, and the ratios of those counts |
| WaterQualityMl.CountRow | 3_waterquality_ML.py:72-78 | one loop pass increments each counter whose condition holds for the row |
| WaterQualityMl.ExampleCounts | 3_waterquality_ML.py:71-78 | predictions [1,0,1,1] against labels [1,0,0,1] give 3 correct, 1 misclassified, TP 2, FP 1, TN 1, FN 0, predicted yes 3 |
| WaterQualityMl.EvaluationExample | 3_waterquality_ML.py:79-84 | for that example, accuracy 3/4, recall 1, false-positive rate 1/2, precision 2/3 |

## Left out

- HTML scraping (`webscraping_depthealth`): library parsing of a downloaded page.
- `numericise`: library coercion of text to numbers. Columns are taken as
  already numeric, and a text cell where a number is compared is excluded by
  the preconditions, where pandas would raise `TypeError`.
- `day_to_unix`: library timestamp parsing and float formatting. Its output is
  text, which would make the later comparisons with integers raise. The model
  takes the Datetime column as numeric, which is what the bounding box intends.
- `reset_index()` in `no_nans` and in `day_to_unix`: the inserted `index`
  column is not modelled. Row labels are taken to equal row positions wherever
  the source uses `.loc[i]` (`categorize`, `undersample`, `calculate_accuracy`).
- The HTTP request and JSON decoding: replaced by the `fetch` parameter.
- Python's text of numbers and lists (`str(...)`): replaced by the `show` and
  `listText` parameters.
- Column order in the frame: rows are maps.
- The sine/cosine month encoding and `dist_waikiki`: floating-point
  trigonometry.
- `cross_validation_for_trees`, `gradientboostedtree`, `feature_importance`:
  scikit-learn calls. Predictions are an argument.
- The `main` functions, file reading and writing, `sys.argv` and printing. The
  composition of stage A's `main` after the bounding box is modelled
  (`EnrichWithWeather`).
- The unused `numtrain` of `calculate_accuracy` and `unixday` of
  `lists_for_darksky_api`.
- WaterQualityMl.Cut, WaterQualityMl.TrainTestSplit: `n * p` is exact real
  arithmetic, not a rounded float product, so the cut can be one more than
  the program's (`int(100 * 0.57)` is 56 in floating point, 57 in the model).
  `int()` truncation and Python's slice clamping are modelled.
- WaterQualityMl.Ratios: the ratios are exact real quotients, not IEEE
  floats, so the identity "ratio times denominator equals numerator" holds in
  the model but not always in the program (1/49*49 rounds below 1).
- Frames.IsFinite: cells are finite reals, the missing value or text. The
  infinities that `pd.to_numeric` can produce, and that `np.isfinite` also
  rejects, are not modelled.
- A missing column. Every operation that reads a column requires it in every
  row (`HasColumn`, `NumericColumn`), so the `KeyError` pandas raises for a
  missing column on a frame with rows is not modelled. The modelled calls in
  the three scripts name only columns that their frames carry.
- Frames.DataFrame.SetColumn: a frame without rows is the empty sequence. In
  pandas, assigning a list of any length to an empty frame re-indexes it
  instead of raising `ValueError`; the model reports a length mismatch there.
  The `KeyError` for a missing column of an empty frame is not captured either,
  since column presence is stated row by row. No call in the pipeline assigns
  a non-empty list to an empty frame.
- Weather.AddListToDf: on a frame without rows, a non-empty list is reported
  as a length mismatch, where pandas would re-index the frame and carry on
  (see `Frames.DataFrame.SetColumn`).
- PrepareForMl.MonthToken: `\d` is read as the ASCII digits 0-9, not every
  Unicode decimal digit.
- The uniformity of the random shuffle and draw: any permutation and any
  distinct draw is allowed.
