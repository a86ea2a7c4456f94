# Globular-cluster search over Gaia DR3: a Dafny model

This project models the core of a small pipeline that looks for globular clusters in the
Gaia DR3 catalogue. The modelled code has three parts.

- **The resumable sky scan** (`scan_sky_and_find_clusters`).
  - It walks a grid of patch centres, with right ascension in the outer loop and declination in the inner one.
  - It skips every patch whose identifier `f"{ra:.4f}_{dec:.4f}"` was in the progress file at startup.
  - It fetches the observations of each remaining patch. A patch with fewer than ten rows is abandoned.
  - It clusters the proper motions and parallaxes with DBSCAN and scores the patch by the fraction of clustered points.
  - It appends `ra,dec,score` to the results file when anything clustered (`save_cluster`).
  - Finally it appends the patch identifier to the progress file.
- **The query builder** (`write_query`). It produces the ADQL text of a cone or box search, with an optional `TOP`, a column list, five quality filters and an optional `ORDER BY`. A shape tag other than CIRCLE or BOX, in any case, is an error.
- **The sexagesimal conversions** (`ra_decimal`, `dec_decimal`). They read `h:m:s` or `d:m:s` texts as three `int()` fields and return decimal degrees.

## How the model is built

Coordinates are integers in units of 1e-4 degree, and so is the patch size. With this choice:

- numpy's `arange` becomes exact (`AngleGrid.Arange`);
- `:.4f` becomes an exact fixed-point rendering (`PatchIds.Fixed4`);
- patch identifiers can be read back (`PatchIds.PatchIdRoundTrip`).

The scan is imperative in the source, so it is a class, `Scanner.SkyScan`:

- Its state is the identifier set loaded at startup, the two files as a text and a sequence of detections, and a ghost journal of the requests and appends made so far.
- The observation service and DBSCAN are oracles. DBSCAN must return one label per point.
- Its methods (`Scan`, `ScanRow`, `ScanPatch`, `ScoreAndCommit`, `SaveCluster`, `Commit`) are the two nested loops and their body. Each is proved to add exactly the events of the pure specification: `Scanner.Run` for the loops, `Scanner.PatchStep` for one iteration, `Scanner.Outcome` for the scoring and commit, and the single event each of `SaveCluster` and `Commit` appends.
- The theorems in `ScannerTheorems` are stated about that specification. They cover:
  - skipping of loaded patches;
  - the result-before-progress append order;
  - sparse patches;
  - commit exactly when dense;
  - a result line exactly when something clustered;
  - absence of repeats;
  - resumption.

`write_query` and the unit conversions are pure functions returning a `Result`.

- `write_query` is modelled as the list of lines of its triple-quoted template.
- The conversions are modelled on a model of Python's `int()`: the ASCII whitespace `int()` skips at either end (the space and `\t` to `\r`, not the separators `\x1c` to `\x1f` that `str.isspace()` also counts), an optional sign, and digits with single underscores between them.
- The list comprehension over the fields is `Units.ParseEach`. It takes the field parser as a parameter and reports the first field that is rejected.

`lib/query.py` and `lib/units.py` are not called by `search_cluster.py`. They are modelled on their own.

## Model

| member | source | states |
|---|---|---|
| Scanner.SkyScan.Load | search_cluster.py:99-103 | the loaded set is the set of lines of the progress file, or empty when there is no file; the files start as they are and no event has happened |
| Scanner.SkyScan.Scan | search_cluster.py:105-139 | the nested loops make exactly the requests and appends of `Run` over the `arange` grid, in order; `finished` is false exactly when a service failure ended the scan; both files only grow, and each stays its startup text followed by the lines the events appended |
| Scanner.SkyScan.ScanRow | search_cluster.py:112-139 | the inner loop for one right ascension makes exactly the events of `Run` over that row and stops at a service failure |
| Scanner.SkyScan.ScanPatch | search_cluster.py:113-121 | one iteration does exactly what `PatchStep` specifies: nothing for a loaded identifier; otherwise a request, then an abort on failure, nothing more for fewer than ten rows, and otherwise scoring and commit |
| Scanner.SkyScan.ScoreAndCommit | search_cluster.py:129-139 | a dense patch appends a result line exactly when something clustered, then its identifier to the progress file |
| Scanner.SkyScan.SaveCluster | search_cluster.py:59-60 | `save_cluster` appends one detection to the results file and leaves the progress file alone |
| Scanner.SkyScan.Commit | search_cluster.py:138-139 | the progress file grows by the identifier and a line break, and the results are unchanged |
| Scanner.PatchStep | search_cluster.py:113-139 | one iteration of the loop as the events it causes; pinned down by `PatchStepShape`, `StepCommitsIffDense`, `StepDetectsIffClusters`, `CommitsOfStep` and `SparseStep`, and implemented by `SkyScan.ScanPatch` |
| Scanner.Outcome | search_cluster.py:134-139 | what a dense patch appends; `StepDetectsIffClusters` states that it is one result line, carrying the centre and `Score(labels)`, exactly when `Clustered(labels) > 0`, and `CommitsOfStep` that exactly one progress line follows |
| Scanner.Run | search_cluster.py:111-139 | the whole scan as its events, stopping at a service failure; pinned down by `RunAppend`, `RunEventsFromSteps`, `RunIncludesStep`, `RunAppendOrder`, `LoadedPatchesUntouched`, `CommittedIffDense`, `DetectedIffClusters` and `CommitsNoRepeats`, and implemented by `SkyScan.Scan` |
| Scanner.Features | search_cluster.py:124 | one feature point per observation row |
| Scanner.RunAppend | search_cluster.py:111-112 | scanning one run of centres and then another is scanning both, unless the first ended on a failure |
| Scanner.AbortEndsScan | search_cluster.py:118 | an uncaught service failure in one row is where the scan of the whole grid ends |
| ScannerTheorems.PatchStepShape | search_cluster.py:113-139 | an iteration does nothing exactly when the patch was loaded; otherwise it starts with the request, concerns only its own patch, keeps the append order and writes only scores in (0, 1] |
| ScannerTheorems.RunAppendOrder | search_cluster.py:134-139 | in any scan a result line is immediately followed by its patch's progress line, every progress line directly follows its own patch's request or result line, and every written score lies in (0, 1] |
| ScannerTheorems.LoadedPatchesUntouched | search_cluster.py:113-115 | no request, result line or progress line of a scan concerns a patch loaded at startup |
| ScannerTheorems.RunEventsFromSteps | search_cluster.py:111-112 | every event of a scan comes from the iteration of one of its centres |
| ScannerTheorems.RunIncludesStep | search_cluster.py:111-112 | when a scan runs to the end, every centre's iteration takes place within it |
| ScannerTheorems.SparsePatchLeavesNoLine | search_cluster.py:120-121 | a patch with fewer than ten rows is at most requested: it gets no result line and no progress line |
| ScannerTheorems.CommittedIffDense | search_cluster.py:114-139 | a patch's identifier is appended only if it was not loaded and its fetch returned at least ten rows, and in a scan that ran to the end every such patch is appended |
| ScannerTheorems.DetectionOf | search_cluster.py:129-135 | the result line of a clustering patch is about that patch's centre and carries a score in (0, 1] |
| ScannerTheorems.StepDetectsIffClusters | search_cluster.py:118-135 | one iteration writes a result line exactly when the patch was not loaded, returned at least ten rows and `Clustered(labels) > 0`; it then writes exactly one, `Detection(ra, dec, Score(labels))` |
| ScannerTheorems.DetectedIffClusters | search_cluster.py:113-135 | a scan writes a result line for a patch only if it was not loaded, dense and clustered, and then with its score; in a scan that ran to the end every such patch has exactly one result line |
| ScannerTheorems.DetectionsNoRepeats | search_cluster.py:108-135 | over a grid with distinct identifiers, no two result lines are about the same patch |
| ScannerTheorems.DetectionsAreOfCentres | search_cluster.py:108-135 | every result line is about one of the scanned centres |
| ScannerTheorems.StepCommitsIffDense | search_cluster.py:114-139 | an iteration appends its patch's progress line exactly when the patch was not loaded and was dense |
| ScannerTheorems.CommitsOfStep | search_cluster.py:138-139 | an iteration appends its identifier exactly once when it commits, and nothing otherwise |
| ScannerTheorems.CommitsAreIds | search_cluster.py:113 | every appended identifier is the identifier of one of the scanned centres and fits on one line |
| ScannerTheorems.CommitsNoRepeats | search_cluster.py:138-139 | when the grid's identifiers are distinct, no identifier is appended twice |
| ScannerTheorems.ScanGridDistinctIds | search_cluster.py:108-113 | the centres of the `arange` grid have pairwise distinct identifiers |
| ScannerTheorems.ResumeSkipsCommitted | search_cluster.py:99-103 | the next run loads this run's starting set plus exactly the identifiers this run appended, and so touches no committed patch |
| ScannerTheorems.SparsePatchRetried | search_cluster.py:120-121 | a sparse patch that was not loaded is not loaded by the next run either, which requests it again |
| ScannerTheorems.OnePatchGrid | search_cluster.py:108-113 | the one-degree grid over [0, 1) x [0, 1) is the single patch `0.0000_0.0000` |
| ScannerTheorems.OnePatchDetection | search_cluster.py:111-139 | twelve rows of which ten cluster give a request, a result line with score 10/12 and then the progress line |
| ScannerTheorems.OnePatchTooSparse | search_cluster.py:99-121 | a patch with five rows is only requested and nothing is appended, so the next run loads the same set and does exactly the same |
| DensityScore.Clustered | search_cluster.py:129 | the number of non-noise labels is at most the number of labels |
| DensityScore.NoneClustered | search_cluster.py:129 | nothing clustered exactly when every label is -1 |
| DensityScore.AllClustered | search_cluster.py:129 | everything clustered exactly when no label is -1 |
| DensityScore.Score | search_cluster.py:129-131 | the score lies in [0, 1] and is positive exactly when something clustered |
| DensityScore.ScoreExtremes | search_cluster.py:129-131 | the score is 1 exactly when no label is noise, and 0 exactly when all are |
| DensityScore.ScoreExample | search_cluster.py:129-131 | ten clustered labels out of twelve score 10/12 |
| AngleGrid.Arange | search_cluster.py:108-109 | the k-th value is `lo + k * step` and lies below `hi`, and one more step would reach `hi` |
| AngleGrid.ArangeLength | search_cluster.py:108-109 | `arange` has `ceil((hi - lo) / step)` values, and none when `hi <= lo` |
| AngleGrid.ArangeIncreasing | search_cluster.py:108-109 | `arange` values strictly increase |
| AngleGrid.Grid | search_cluster.py:111-112 | the nested loops as the sequence of centres visited; pinned down by `GridLength`, `GridAt` (right ascension major), `GridMember`, `GridNoRepeats` and, for the loops of the scanner, `GridSnoc` and `RowSnoc` |
| AngleGrid.GridPrefix | search_cluster.py:111-112 | the grid of the first right ascensions is a prefix of the whole grid |
| AngleGrid.GridLength | search_cluster.py:111-112 | the grid has `|ras| * |decs|` centres |
| AngleGrid.GridAt | search_cluster.py:111-112 | right ascension is the outer loop: position `i * |decs| + j` holds `(ras[i], decs[j])` |
| AngleGrid.GridMember | search_cluster.py:111-112 | every centre pairs an axis right ascension with an axis declination |
| AngleGrid.ScanGridShape | search_cluster.py:108-112 | the scan visits as many patches as the product of the two step counts, all in `[raMin, raMax) x [decMin, decMax)` |
| AngleGrid.GridNoRepeats | search_cluster.py:111-112 | strictly increasing axes give a grid without repeated centres |
| AngleGrid.ScanGridNoRepeats | search_cluster.py:108-112 | no centre of a scan's grid repeats |
| PatchIds.Fixed4 | search_cluster.py:113 | `:.4f` of a coordinate in 1e-4 degree units; `Fixed4RoundTrip` reads it back and `Fixed4Chars` bounds its characters |
| PatchIds.PatchId | search_cluster.py:113 | the patch key; `PatchIdRoundTrip`, `PatchIdInjective`, `PatchIdIsOneLine` and `PatchIdExample` pin it down |
| PatchIds.Frac4 | search_cluster.py:113 | the fractional part of `:.4f` is exactly four digits |
| PatchIds.Frac4Value | search_cluster.py:113 | the four digits denote the remainder they render |
| PatchIds.Fixed4Chars | search_cluster.py:113 | a `:.4f` rendering holds only digits, a sign and a point |
| PatchIds.PatchIdChars | search_cluster.py:113 | a patch identifier holds only digits, signs, points and the `_` separator |
| PatchIds.Fixed4RoundTrip | search_cluster.py:113 | reading a `:.4f` rendering back yields the coordinate it was made from |
| PatchIds.PatchIdRoundTrip | search_cluster.py:113 | reading an identifier back yields its patch centre |
| PatchIds.PatchIdInjective | search_cluster.py:113-114 | distinct centres have distinct identifiers, so membership in the loaded set identifies one patch |
| PatchIds.PatchIdIsOneLine | search_cluster.py:139 | an identifier holds no line break, so it is one line of the progress file |
| PatchIds.PatchIdExample | search_cluster.py:113 | right ascension 12.34 and declination -5 give `12.3400_-5.0000` |
| ProgressLedger.LedgerText | search_cluster.py:138-139 | the text appended for a run of commits; `LedgerSnoc` and `ReadBack` pin it down |
| ProgressLedger.Loaded | search_cluster.py:99-103 | the set of lines of the progress file, empty without one; `Reload` states what a later run loads |
| ProgressLedger.LedgerSnoc | search_cluster.py:138-139 | committing one more identifier appends its line to the progress text |
| ProgressLedger.SplitLinesAppend | search_cluster.py:138-139 | appending one line to a line-terminated file adds exactly that line to what `splitlines()` reads back |
| ProgressLedger.ReadBack | search_cluster.py:101 | `splitlines()` of a line-terminated file followed by appended identifiers is the file's lines followed by those identifiers |
| ProgressLedger.Reload | search_cluster.py:99-103 | the set loaded from the grown file is the earlier set plus the appended identifiers |
| Text.Split | lib/units.py:2 | `split(':')` gives at least one field, and no field holds the separator |
| Text.SplitCons | lib/units.py:2 | a text without separator followed by the separator is split off as the first field |
| Text.SplitLines | search_cluster.py:101 | no line returned by `splitlines()` holds a line break |
| Text.SplitLinesCons | search_cluster.py:101 | a line ended by a line break is split off as the first line |
| Decimal.NatToString | search_cluster.py:113 | `str(n)` is at least one digit, with no leading zero unless `n` is zero |
| Decimal.NatToStringValue | search_cluster.py:113 | the digits of `str(n)` denote `n` |
| Decimal.NatToStringInjective | search_cluster.py:113 | distinct numbers have distinct renderings |
| Decimal.IntToString | lib/query.py:18 | `str(i)` starts with a minus sign exactly when `i` is negative, followed by digits |
| Decimal.LastDigits | search_cluster.py:113 | the zero-padded digits have the requested length |
| Decimal.LastDigitsValue | search_cluster.py:113 | the zero-padded digits denote the number modulo the power of ten |
| Query.ParseShape | lib/query.py:8-13 | the shape tag after `upper()`; `ShapeCaseInsensitive` and `UpperIdempotent` state that exactly the tags whose upper-cased form is CIRCLE or BOX are accepted, whatever their case, and `ShapeExamples` gives instances |
| Query.WriteQuery | lib/query.py:5-30 | the query text, or the shape error; `InvalidShapeOnly` states when it fails, `QueryLayout` and `QueryClauses` what the lines are, `TopClause`, `ColumnsClause`, `OrderClause` and `RegionArguments` what each optional or variable clause holds |
| Query.WriteQueryDefaults | lib/query.py:5-7 | `write_query` with its default arguments; `DefaultQuery` states the resulting clauses |
| Query.DefaultQuery | lib/query.py:5-7 | with the defaults the query selects `TOP 10000`, starts its column list with the eight fixed columns and orders by distance |
| Query.Region | lib/query.py:9-11 | the region of the WHERE clause; pinned down by `RegionArguments` |
| Query.RegionArguments | lib/query.py:9-11 | a circle's arguments are the frame, `ra`, `dec` and `r` once as its radius; a box's are the frame, `ra`, `dec` and `r` twice, as width and height |
| Query.QueryLinesOneEach | lib/query.py:17-28 | the template has twelve lines, none holding a line break, when the centre and the radius are one-line texts |
| Query.QueryLayout | lib/query.py:17-30 | splitting the returned text gives back the template's lines in order |
| Query.QueryClauses | lib/query.py:17-28 | the query's lines are, in order, SELECT, the columns, `FROM gaiadr3.gaia_source`, the WHERE region, the five quality filters and the ORDER BY line |
| Query.TopClause | lib/query.py:18 | `TOP limit` appears exactly when `limit` is truthy, so `None` and `0` omit it |
| Query.OrderClause | lib/query.py:27 | `ORDER BY dist ASC` appears exactly when `order_by_dist` holds, and the line is empty otherwise |
| Query.ColumnsClause | lib/query.py:15-19 | the column list starts with `*` exactly when all rows are asked for and with the eight fixed columns otherwise, and always ends with ` AS dist` |
| Query.ShapeCaseInsensitive | lib/query.py:8-10 | a shape tag is accepted exactly when its upper-cased form is CIRCLE or BOX, whatever its case |
| Query.InvalidShapeOnly | lib/query.py:12-13 | `write_query` fails, with no text, exactly for any other shape tag |
| Query.ShapeExamples | lib/query.py:8-13 | `circle` and `Box` are accepted, `polygon` and the empty tag are not |
| Query.SplitLinesJoin | lib/query.py:17-28 | joining one-line texts with line breaks and splitting the result gives them back |
| Units.ParseInt | lib/units.py:2 | `int()` of one field; `ParseIntRoundTrip`, `FractionRejected`, `LeadingZeros`, `FractionalField` and `SkippedWhitespace` pin it down |
| Units.ParseEach | lib/units.py:2 | the list comprehension over the fields, for any field parser; `ParseEachMeaning` and `ParseEachOfThree` state what it yields |
| Units.ParseFields | lib/units.py:2 | the unpacking into three integers; `ParseFieldsOfThree`, `WrongFieldCount` and `FieldsRoundTrip` state when it fails and what it yields |
| Units.DecDecimal | lib/units.py:6-8 | `dec_decimal`; `ConversionsOfFields`, `DegreesBounds` and the examples state its value and its failures |
| Units.RaDecimal | lib/units.py:1-3 | `ra_decimal`; `RaIsFifteenTimesDec` relates it to `dec_decimal` on every text |
| Units.LeadingSpaces | lib/units.py:2 | the leading run of the whitespace `int()` skips (space, `\t` to `\r`), and no more |
| Units.TrailingSpaces | lib/units.py:2 | the trailing run of the whitespace `int()` skips (space, `\t` to `\r`), and no more |
| Units.StripBounds | lib/units.py:2 | the text `int()` reads keeps every character that is not skipped whitespace, and starts and ends on one |
| Units.DropUnderscores | lib/units.py:2 | removing digit-group underscores leaves only digits |
| Units.FirstRejected | lib/units.py:2 | the first rejected field is at most the field count |
| Units.ParseEachMeaning | lib/units.py:2 | the comprehension succeeds exactly when every field is an integer, with one value per field; otherwise it fails on the first rejected field |
| Units.ParseEachOfThree | lib/units.py:2 | three fields are read left to right, and the first rejected one is reported |
| Units.ParseFieldsOfThree | lib/units.py:2 | `h:m:s` fails on its first non-integer field, and otherwise gives the three values |
| Units.WrongFieldCount | lib/units.py:7 | a text without exactly three fields fails: on its first non-integer field, or else on the field count |
| Units.StripTrimmed | lib/units.py:2 | a text with no skipped whitespace at either end is read by `int()` as it is |
| Units.StripKeeps | lib/units.py:2 | a character that is not skipped whitespace survives at its shifted position in the text `int()` reads |
| Units.SkippedWhitespace | lib/units.py:2 | `int(" 5\n")` is 5, while `int("\x1c5")` fails because `int()` does not skip `\x1c` |
| Units.ParseIntRoundTrip | lib/units.py:2 | `int(str(i)) == i` for every integer |
| Units.FractionRejected | lib/units.py:2 | `int()` rejects any text holding a decimal point |
| Units.FieldsRoundTrip | lib/units.py:7 | `str(d):str(m):str(s)` reads back as `(d, m, s)` |
| Units.ConversionsOfFields | lib/units.py:1-8 | `dec_decimal` gives `d + m/60 + s/3600` and `ra_decimal` gives fifteen times that, for any integer fields |
| Units.RaIsFifteenTimesDec | lib/units.py:1-8 | on the same text, `ra_decimal` fails exactly when `dec_decimal` does, with the same error, and is otherwise fifteen times it |
| Units.DegreesBounds | lib/units.py:8 | non-negative fields give an angle of at least the leading field, and minutes and seconds below sixty keep it below the next whole unit |
| Units.NegativeDegreesExample | lib/units.py:6-8 | minutes and seconds are added even to a negative leading field: `-5:30:00` is -4.5 |
| Units.FractionalSecondsExample | lib/units.py:1-8 | `12:30:15.5` is refused by both conversions, on its third field |
| Units.ZeroAndFullTurnExamples | lib/units.py:1-8 | `0:0:0` is 0 degrees, and `ra_decimal("24:0:0")` is 360 |
| Units.LeadingZeros | lib/units.py:2 | `int("00")` is 0 |
| Units.FractionalField | lib/units.py:2 | `int("15.5")` fails |

## Left out

- The network. The Gaia query in `get_gaia_data_patch` (search_cluster.py:16-45) and `query_to_df` (lib/query.py:33-42) are not modelled. Fetching is an oracle returning rows or a failure, and a failure, which the loop does not catch, ends the scan.
- DBSCAN itself. The labels are an oracle output with one label per point. The eps/min_samples neighbourhood search is not modelled, and labels below -1 are not excluded.
- The plotting in `save_cluster` (search_cluster.py:63-84) and `os.makedirs` (search_cluster.py:14). The figures and the directory are not modelled.
- Scanner.SkyScan.SaveCluster: the model's appends cannot fail. In the source, an exception from the plotting (for example `plt.savefig` at search_cluster.py:83) or a failed write to either file (search_cluster.py:59-60, 138-139) ends the scan. Such a failure after the result line and before the progress line leaves a detection whose patch is not committed. The next run then processes that patch again and can append a second result line for it. `RunAppendOrder` and the other theorems describe scans without such failures only.
- The module-level call at search_cluster.py:142-150. It only fixes the arguments of the full-sky scan. lib/catalog.py is static data with no behaviour.
- The arcmin-to-degree conversion at search_cluster.py:96. The patch size is given directly in 1e-4 degree units. The docstring's default (20 arcminutes) disagrees with the code's `10*60`; the code is followed.
- Floating point. Floating-point accumulation in `np.arange`, rounding in `:.4f` (including `-0.0000`) and float division are not modelled. Centres are exact multiples of 1e-4 degree and the conversions use exact reals.
- The text of the results line (`f"{ra},{dec},{probability}"`). Python renders the floats of the original; the model records the detection as a value.
- The behaviour of `np.arange` with a zero or negative step: callers of the scan must pass a positive patch size.
- SkyScan.Scan: reading the progress file back is proved only for a file written by whole-line appends (empty or ending in a line break). A file truncated in the middle of a line is not covered.
- Text.SplitLines: only `\n` is treated as a line break. Python's `splitlines()` also splits on `\r`, `\r\n` and other Unicode separators. The files the scan writes contain none of them.
- Units.ParseInt: only ASCII text is modelled. Python's `int()` also accepts non-ASCII Unicode whitespace (it maps it to a space first) and digits of other scripts.
- Units.ParseIntRoundTrip: holds for integers of every size. CPython 3.11 and later refuse `int()` and `str()` conversions of more than 4300 digits by default, which the model does not do.
- Query.Upper: only ASCII letters and the dotless i are mapped. Other non-ASCII case mappings of `str.upper()`, including those that change the length, are not modelled. Those that produce a letter of CIRCLE or BOX are the ligatures ﬁ, ﬂ, ﬃ and ﬄ, which become FI, FL, FFI and FFL. Each of them also produces an F, which neither word contains, so the accepted tags are the same.
- Query.WriteQuery: `ra`, `dec` and `r` are taken as the text Python's f-string renders for them, and `limit` as an integer or `None`. The float rendering itself is not modelled.
