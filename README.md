# Penguin analysis: a verified model in Dafny

This project models the data-aggregation core of `penguin_analysis.py` and
proves properties about the model. The script analyses the Palmer penguins
CSV file in three steps:

- **`load_penguins`** normalises each header cell and field with
  `.strip().strip('"')` and finds seven required columns. It then groups the
  data rows by species into six parallel lists: masses, bill lengths,
  flipper lengths, bill depths, islands and sexes.
- **`calc_mass_ratio`** computes the mean of `mass / (bill length x flipper
  length)` over one species' usable rows.
- **`calc_avg_bill_depth_by_island_and_sex`** merges all species and computes
  the mean bill depth per island, separately for male and female rows.

The model is organised in seven modules:

- `Wrappers` (wrappers.dfy): `Option` and `Result`.
- `Seqs` (seqs.dfy): duplicate-free sequences, `list.index`, the
  first-occurrence order of dict keys, sums and the "mean or 0.0" of line 84.
- `Dicts` (dicts.dfy): Python's insertion-ordered dict, as a key list plus a
  map, and `d[k] = v`.
- `Text` (text.dfy):
  - `str.strip()`, using Python's whitespace set, and `str.strip('"')`;
  - the cell normalisation and its properties;
  - the missing-value markers;
  - ASCII `str.lower()`.
- `Loader` (loader.dfy): `load_penguins`.
- `MassRatio` (mass_ratio.dfy): `calc_mass_ratio`.
- `BillDepth` (bill_depth.dfy): `calc_avg_bill_depth_by_island_and_sex`.

The three functions are written as imperative methods (`LoadPenguins`,
`CalcMassRatio`, `CalcAvgBillDepth`). They use `while` loops that update
local accumulators and dicts, as the script's `for` loops do. Each method is
proved equal to a specification function:

- `Loaded` for `LoadPenguins`;
- `MassRatio` for `CalcMassRatio`;
- `AvgBillDepth` for `CalcAvgBillDepth`.

Lemmas then state what the source promises about those functions. The
normalisation is a pure expression in the script, and in the model it is
the function `Text.Normalize`.

How the script's side effects and exceptions are modelled:

- **File reading** is replaced by the rows `csv.reader` would yield, given as
  `seq<seq<string>>`.
- **`float()`** is a parameter `num: string -> Option<real>`. `None` stands
  for the `ValueError` that `float()` raises.
- **Exceptions** become `Err` results:
  - `rows[0]` on an empty file gives `EmptyInput`.
  - `header.index` on a missing column gives `MissingColumn`, naming the first
    missing name in the order lines 18-24 look the names up.
  - `row[idx]` on a short data row gives `ShortRow`, with the row's index
    among the CSV rows (the header row is 0).
  - `d[species_name]` on an unknown species gives `KeyNotFound`.
  - `float()` on a cell that is not a number gives `BadNumber` (mass ratio)
    or `BadDepth` (bill depth). Either carries the offending text.

**Quotes.** `.strip('"')` removes every leading and every trailing double
quote of a cell, not one enclosing pair. `Text.NormalizeStripsAllQuotes`
states this.

One more detail of the code is modelled as written:

- The stripping happens after the whitespace strip, so whitespace inside the
  quotes survives the first normalisation.
- `calc_mass_ratio` normalises the stored cells a second time (lines 67-69).
- So the mass ratio can see a different cell than the loader stored.
  `Text.NormalizeNotIdempotent` proves this.

Each loop body that judges or tallies one row is a method of its own
(`MassRatio.AssessRow`, `MassRatio.JudgeRow`, `BillDepth.TallyRow`). It is the
statement form of the function that specifies it (`Assess`, `Judge`, `Tally`
with `Count`): the same tests in the source's order, one assignment at a
time, and proved equal to that function.

## Model

| member | source | states |
|---|---|---|
| `Seqs.Find` | penguin_analysis.py:18-24 | `list.index`: `None` exactly when the element is absent; otherwise a position holding it with no earlier occurrence |
| `Seqs.Distinct` | penguin_analysis.py:37-38 | the first occurrences of a sequence: no duplicates, and the same elements as the input |
| `Seqs.DistinctExtends` | penguin_analysis.py:37-38 | walking more elements only appends to the first-occurrence list |
| `Seqs.DistinctFirstOccurrenceOrder` | penguin_analysis.py:37-38 | the first-occurrence list is ordered by where each element first occurs |
| `Seqs.FindPrefix` | penguin_analysis.py:18-24 | appending does not move an element's first occurrence |
| `Seqs.Sum` | penguin_analysis.py:81 | the running `total_ratio +=` sum, folded left to right |
| `Seqs.MeanOrZero` | penguin_analysis.py:84 | 0.0 for no values; otherwise the mean times the count is the sum |
| `Dicts.Put` | penguin_analysis.py:38 | `d[k] = v`: a new key is appended to the key order, an existing key keeps its place, and the value is replaced; `Dicts.PutValid` states its properties |
| `Dicts.Empty` | penguin_analysis.py:26 | `{}` is a valid dict with no keys |
| `Dicts.PutValid` | penguin_analysis.py:38 | `d[k] = v` keeps the dict valid, maps k to v and leaves every other key alone |
| `Text.IsSpace` | penguin_analysis.py:17 | the characters `str.strip()` removes: those for which `str.isspace()` holds |
| `Text.StripBy` | penguin_analysis.py:17 | `s.strip(chars)`: the cell without its leading and trailing run of the given characters; the `StripBy*` lemmas state this |
| `Text.Normalize` | penguin_analysis.py:17 | `cell.strip().strip('"')`: whitespace first, then every leading and trailing quote; the `Normalize*` lemmas state its properties |
| `Text.LeadingCountSpec` | penguin_analysis.py:17 | the leading count is the longest prefix whose characters are all stripped |
| `Text.TrailingCountSpec` | penguin_analysis.py:17 | the same at the back |
| `Text.TrailingOfSuffix` | penguin_analysis.py:17 | once the front run is gone, the back run is that of the whole cell unless nothing is left |
| `Text.StripByRange` | penguin_analysis.py:17 | what `strip` leaves is the slice between the two runs |
| `Text.StripByEmpty` | penguin_analysis.py:17 | `strip` leaves nothing exactly when every character is stripped |
| `Text.StripByEdges` | penguin_analysis.py:17 | what `strip` leaves begins and ends with a character that is not stripped |
| `Text.LeadingCountOfRun` | penguin_analysis.py:17 | a run of stripped characters before another character is exactly the leading count |
| `Text.TrailingCountOfRun` | penguin_analysis.py:17 | the same at the back |
| `Text.StripRuns` | penguin_analysis.py:17 | stripping runs from both sides of a word gives back the word |
| `Text.StripKeepsWhole` | penguin_analysis.py:17 | a cell that begins and ends with unstripped characters is kept whole |
| `Text.NormalizeNoEdgeQuotes` | penguin_analysis.py:17 | a normalised cell neither begins nor ends with a double quote |
| `Text.NormalizeStripsAllQuotes` | penguin_analysis.py:29-35 | whitespace padding and then any number of quotes on either side are removed |
| `Text.NormalizeKeepsClean` | penguin_analysis.py:67-69 | a cell that starts and ends with neither whitespace nor a quote is unchanged |
| `Text.NormalizeKeepsQuotedSpace` | penguin_analysis.py:29-35 | whitespace inside the quotes survives normalisation |
| `Text.NormalizeDropsLeadingSpace` | penguin_analysis.py:67-69 | whitespace in front of a clean word is removed |
| `Text.NormalizeNotIdempotent` | penguin_analysis.py:67-69 | normalising a stored cell again can change it, so the mass ratio can see a different cell from the loader |
| `Text.IsMissing` | penguin_analysis.py:71 | the missing markers `""` and `"NA"` of lines 71 and 101 |
| `Text.Lower` | penguin_analysis.py:112 | `str.lower()` keeps the length |
| `Text.LowerMatchesAnyCase` | penguin_analysis.py:112-113 | a sex cell lower-cases to "male" exactly when it spells male in any mix of cases |
| `Loader.NormalizeAll` | penguin_analysis.py:17 | the header list comprehension: every header cell normalised, in order |
| `Loader.ObservationAt` | penguin_analysis.py:29-35 | the seven normalised cells the loop reads from one data row |
| `Loader.Observations` | penguin_analysis.py:28-35 | the observations of all data rows, in file order |
| `Loader.Insert` | penguin_analysis.py:37-52 | one loop step: a new species gets an empty entry at the end of the key order, then the six cells are appended to its lists |
| `Loader.Grouped` | penguin_analysis.py:26-52 | the dict the loop builds, one `Insert` per row; `Loader.GroupedKeys`, `GroupedDomain` and `GroupedEntry` state what it holds |
| `Loader.GroupedRows` | penguin_analysis.py:28-54 | after the header: the first short data row fails, otherwise the grouping of all data rows |
| `Loader.Loaded` | penguin_analysis.py:17-54 | what `load_penguins` returns or raises on the rows of a CSV file; `Loader.LoadedTable` states what a successful load holds |
| `Loader.RecordOf` | penguin_analysis.py:47-52 | the six lists built from some rows have equal length, one entry per row |
| `Loader.Lookup` | penguin_analysis.py:18-24 | the names are looked up in order; success gives each name's first position; failure names the first missing name, all earlier names being present |
| `Loader.FindColumns` | penguin_analysis.py:18-24 | succeeds exactly when all seven names occur; a failure names the first missing one in lookup order; success gives each name's first position |
| `Loader.FirstShortRow` | penguin_analysis.py:28-35 | finds the first data row too short for the column positions, or reports that every row fits |
| `Loader.LoadPenguins` | penguin_analysis.py:17-54 | the method returns the specified load: empty input, missing column, short row, or the grouping of all data rows |
| `Loader.GroupRows` | penguin_analysis.py:26-54 | the grouping loop builds `Grouped` of the data rows, or stops at the first short row |
| `Loader.ShortRowFound` | penguin_analysis.py:28-35 | when every row before row i fits and row i does not, row i is the first short row |
| `Loader.ObservationsSnoc` | penguin_analysis.py:28-35 | one more fitting row adds one observation at the end |
| `Loader.GroupedSnoc` | penguin_analysis.py:37-52 | one more row is one more step of the loop body |
| `Loader.OfUnseenSpecies` | penguin_analysis.py:37-45 | a species that has not occurred has no rows |
| `Loader.GroupedDomain` | penguin_analysis.py:37-45 | the table has an entry exactly for the species that occur |
| `Loader.GroupedKeys` | penguin_analysis.py:37-45 | the table's keys are the species, each once, in order of first appearance |
| `Loader.GroupedEntry` | penguin_analysis.py:37-52 | a species' entry holds exactly that species' rows, in file order |
| `Loader.GroupedWellFormed` | penguin_analysis.py:37-52 | the table is a valid dict whose six lists are of equal length in every entry |
| `Loader.GroupedCountsEveryRow` | penguin_analysis.py:28-52 | the list lengths summed over the species equal the number of rows |
| `Loader.GroupedExtends` | penguin_analysis.py:37-52 | later rows only append: species order is kept, no entry is reset, and each list keeps its earlier cells as a prefix |
| `Loader.RecordOfAt` | penguin_analysis.py:47-52 | index i of each of the six lists comes from the same row i |
| `Loader.MissingColumnIgnoresData` | penguin_analysis.py:17-24 | a header missing a required column fails the load whatever the data rows are |
| `Loader.HeaderOnlyIsEmpty` | penguin_analysis.py:26-28 | a header with all columns and no data rows gives an empty table |
| `Loader.LoadedTable` | penguin_analysis.py:17-54 | a successful load gives a valid table of aligned records, keyed by species in first-seen order; each entry holds exactly its species' rows in order; the lengths add up to the number of data rows |
| `Loader.ObservationsLength` | penguin_analysis.py:28 | one observation per data row |
| `MassRatio.Judge` | penguin_analysis.py:71-82 | one row on its normalised cells: skipped on a missing marker, aborted on the first of mass, bill, flipper that does not parse, skipped on a zero bill or flipper, otherwise the ratio |
| `MassRatio.Assess` | penguin_analysis.py:67-82 | one row: its stored cells normalised again, then judged |
| `MassRatio.Ratios` | penguin_analysis.py:66-82 | the ratios of the rows that survive, in row order |
| `MassRatio.FirstUnparsable` | penguin_analysis.py:74-76 | the cell of the first row whose parse fails, if any |
| `MassRatio.RatioOver` | penguin_analysis.py:66-84 | over one species' rows: the first unparsable cell aborts, otherwise the mean of the surviving ratios or 0.0 |
| `MassRatio.JudgeRatio` | penguin_analysis.py:71-82 | a row contributes exactly when no cell is missing, all three parse and neither bill nor flipper is zero; the contribution times bill times flipper is the mass |
| `MassRatio.JudgeUnparsable` | penguin_analysis.py:71-76 | a row aborts exactly when no cell is missing and one does not parse; the error names the first of mass, bill and flipper that does not parse |
| `MassRatio.RatioTimesDenominator` | penguin_analysis.py:81 | a nonzero bill and flipper give a nonzero divisor, and the quotient times the divisor is the mass |
| `MassRatio.MassRatio` | penguin_analysis.py:59 | `KeyNotFound` is returned exactly when the species is not in the table |
| `MassRatio.CalcMassRatio` | penguin_analysis.py:57-84 | the loop returns the specified result: the key error, the first unparsable cell, or the mean of the surviving ratios, 0.0 if none survive |
| `MassRatio.AssessRow` | penguin_analysis.py:67-82 | one row's normalised cells give the row's outcome |
| `MassRatio.JudgeRow` | penguin_analysis.py:71-82 | the missing test, the three parses in order, the zero guard and the division give the row's outcome |
| `MassRatio.Accumulate` | penguin_analysis.py:66-82 | after row i the accumulators hold the sum and count of the surviving ratios so far, or row i's bad cell is the failure of the whole species |
| `MassRatio.MeanAtEnd` | penguin_analysis.py:84 | dividing the accumulators, or 0.0 for a zero count, gives the specified result |
| `MassRatio.PrefixStep` | penguin_analysis.py:66-82 | one more row extends the ratios and the failure search by that row's outcome |
| `MassRatio.UnparsableSticks` | penguin_analysis.py:74-76 | rows after the first unparsable one do not change the error |
| `MassRatio.FirstUnparsableAppend` | penguin_analysis.py:74-76 | over two stretches of rows, the first stretch's failure wins |
| `MassRatio.RatiosAppend` | penguin_analysis.py:81-82 | the surviving ratios of two stretches are those of each, in order |
| `MassRatio.OneRow` | penguin_analysis.py:71-82 | a single row's ratios and failure are its own outcome |
| `MassRatio.RatiosAround` | penguin_analysis.py:81-82 | the ratios around a row are those before it, its own, then those after it |
| `MassRatio.FirstUnparsableAround` | penguin_analysis.py:74-76 | the failure around a row is the earlier rows' failure, else its own, else the later rows' failure |
| `MassRatio.SkippedRowIsInvisible` | penguin_analysis.py:71-79 | a row skipped for a missing cell or a zero bill or flipper leaves the result as if it were absent |
| `MassRatio.SkippedRowAddsNoRatio` | penguin_analysis.py:71-79 | a skipped row adds to neither the sum nor the count |
| `MassRatio.SkippedRowAddsNoFailure` | penguin_analysis.py:71-79 | a skipped row cannot fail |
| `MassRatio.UnparsableRowAborts` | penguin_analysis.py:74-76 | the first row with a cell that does not parse aborts with that cell, whatever follows |
| `MassRatio.UsableRowCounts` | penguin_analysis.py:81-82 | a usable row adds its ratio between those of the rows before and after it |
| `MassRatio.NothingUsable` | penguin_analysis.py:84 | when every row is skipped the result is exactly 0.0 |
| `MassRatio.SkippedFirstRow` | penguin_analysis.py:71-72 | a skipped first row changes nothing |
| `MassRatio.SingleUsableRow` | penguin_analysis.py:81-84 | one usable row gives its own ratio as the mean |
| `MassRatio.SkippedThenUsable` | penguin_analysis.py:71-84 | a skipped row followed by a usable one gives the usable row's ratio as the mean |
| `MassRatio.ExampleAssess` | penguin_analysis.py:67-81 | a row with mass "NA" is skipped; the row 4000, 40.0, 200 contributes 4000 / (40 x 200) |
| `MassRatio.ExampleRatioOver` | penguin_analysis.py:66-84 | those two rows give the mean 4000 / (40 x 200) |
| `MassRatio.MissingMassExample` | penguin_analysis.py:57-84 | a species with those two rows has mass ratio 4000 / (40 x 200) |
| `BillDepth.Qualifies` | penguin_analysis.py:101 | a row takes part when island and sex are non-empty and the depth is neither empty nor "NA" |
| `BillDepth.Count` | penguin_analysis.py:106-115 | a qualifying row with parsed depth: its island gets a zero bucket if it has none, then the depth is added to the bucket of its lower-cased sex when that is "male" or "female" |
| `BillDepth.Tally` | penguin_analysis.py:101-115 | one row: skipped unless it qualifies, aborted when its depth does not parse, otherwise counted |
| `BillDepth.Totals` | penguin_analysis.py:91-115 | the `totals` dict after the given rows, or the first depth that does not parse |
| `BillDepth.MeanOf` | penguin_analysis.py:120-121 | a bucket's sum over its count, or 0.0 for a count of zero |
| `BillDepth.Summarised` | penguin_analysis.py:118-122 | the `result` dict: each island, in `totals` order, mapped to its two means |
| `BillDepth.AvgBillDepth` | penguin_analysis.py:87-123 | what `calc_avg_bill_depth_by_island_and_sex` returns or raises; `BillDepth.AvgBillDepthMeans` states it against the reference functions below |
| `BillDepth.QualifyingIslands` | penguin_analysis.py:101-110 | reference: the islands of the qualifying rows, in row order, with repeats |
| `BillDepth.DepthsOf` | penguin_analysis.py:101-115 | reference: the parsed depths of the qualifying rows on one island with one lower-cased sex, in row order |
| `BillDepth.FirstBadDepth` | penguin_analysis.py:101-104 | reference: the depth cell of the first qualifying row that does not parse |
| `BillDepth.CalcAvgBillDepth` | penguin_analysis.py:87-123 | the double loop and the second loop return the specified result |
| `BillDepth.TallySpecies` | penguin_analysis.py:96-115 | the inner loop continues the tally over one species' rows |
| `BillDepth.TallyRow` | penguin_analysis.py:101-115 | the row filter, the parse, the bucket creation and the per-sex update give one row's step |
| `BillDepth.Summarise` | penguin_analysis.py:118-122 | the second loop builds the per-island means |
| `BillDepth.SpeciesStep` | penguin_analysis.py:91-115 | one species continues the tally; a failure in it is the failure of the whole table |
| `BillDepth.AllTallied` | penguin_analysis.py:91-123 | once every species is tallied, the buckets are a valid dict and the result is the second loop over them |
| `BillDepth.RowStep` | penguin_analysis.py:96-115 | one row continues the tally; a failure in it is the failure of the whole species and beyond |
| `BillDepth.TotalsSnoc` | penguin_analysis.py:96-115 | one more row is one more step of the loop body |
| `BillDepth.ErrSticks` | penguin_analysis.py:104 | after a depth fails to parse, later rows cannot change the outcome |
| `BillDepth.ErrStaysOver` | penguin_analysis.py:91-104 | after a depth fails to parse, later species cannot change the outcome |
| `BillDepth.QualifyingIslandsSnoc` | penguin_analysis.py:101 | one more row adds its island to the qualifying islands exactly when it qualifies |
| `BillDepth.DepthsOfLast` | penguin_analysis.py:101-115 | the last row adds its depth to an island and sex exactly when it qualifies, matches and parses |
| `BillDepth.CountKeys` | penguin_analysis.py:106-110 | counting a row adds its island at the end if it has no bucket yet |
| `BillDepth.CountEntry` | penguin_analysis.py:106-115 | counting a row adds its depth to its island's bucket for its lower-cased sex, starting from zero on a new island, and leaves every other bucket alone |
| `BillDepth.TallyEntry` | penguin_analysis.py:101-115 | one row's effect on any island's bucket for any sex |
| `BillDepth.TotalsValid` | penguin_analysis.py:106-110 | the buckets form a valid dict |
| `BillDepth.TotalsDomain` | penguin_analysis.py:101-110 | an island has a bucket exactly when some qualifying row names it, whatever that row's sex |
| `BillDepth.TotalsKeys` | penguin_analysis.py:101-110 | buckets are listed in order of each island's first qualifying row |
| `BillDepth.DepthsOfAbsent` | penguin_analysis.py:101-115 | an island no qualifying row names has no depths |
| `BillDepth.TotalsTally` | penguin_analysis.py:91-115 | each bucket holds the sum and count of the depths of the qualifying rows, over all species, on its island with that lower-cased sex |
| `BillDepth.TotalsFails` | penguin_analysis.py:101-104 | the tally fails exactly when a qualifying row's depth does not parse, and names the first such depth |
| `BillDepth.SummarisedKeys` | penguin_analysis.py:118-119 | the second loop keeps the islands in order, one entry each |
| `BillDepth.SummarisedEntry` | penguin_analysis.py:119-122 | each island's entry holds the two means of its bucket, 0.0 for a count of zero |
| `BillDepth.AvgBillDepthMeans` | penguin_analysis.py:87-123 | the result fails exactly when a qualifying depth does not parse; otherwise its keys are the qualifying rows' islands in first-seen order, and each island maps to the mean qualifying male and female depth over all species, 0.0 where there are none |
| `BillDepth.NoQualifyingRows` | penguin_analysis.py:101 | without a qualifying row there are no islands and no failure |
| `BillDepth.NothingQualifies` | penguin_analysis.py:91-123 | a table without a qualifying row, the empty table among them, gives an empty result |
| `BillDepth.UnclassifiedSexExample` | penguin_analysis.py:101-115 | a row with sex "NA" is not counted but still gives its island an entry with two zero means |
| `BillDepth.MergeRows` | penguin_analysis.py:91-99 | the rows of two species are visited species after species |
| `BillDepth.MergeTally` | penguin_analysis.py:106-115 | "MALE" and "male" rows on one island share the male bucket |
| `BillDepth.SpeciesMergeExample` | penguin_analysis.py:91-123 | male depths 18.0 and 20.0 from two species on one island average to 19.0 |

## Left out

- File access (penguin_analysis.py:9-16): the model takes the rows that `csv.reader` yields. CSV quoting and dialects (line 14) belong to a library whose source is not part of this model.
- `output_results_txt` (penguin_analysis.py:127-139): it writes a file and depends on Python's float formatting.
- `main` and the script entry point (penguin_analysis.py:143-155): it only wires fixed file names together.
- `float()` is a parameter. IEEE-754 rounding, NaN and infinities are not modelled, and numbers are `real`. A `num` that parses "nan" or "inf" is outside the model.
- Text.Lower: only the ASCII letters A-Z are lower-cased, not the rest of Unicode.
- MassRatio.CalcMassRatio: the species' lists must have equal length, which every table `load_penguins` builds has (`Loader.LoadedTable`). On a hand-made table with a short bill or flipper list, the script would raise `IndexError`; the model does not cover that case.
- BillDepth.CalcAvgBillDepth: the table must be a valid dict of aligned records, which every table `load_penguins` builds is. The `IndexError` of a hand-made table with short lists is not modelled.
- The dicts the script mutates in place (`species_dict`, `totals`, `result`) are local variables holding dict values that the methods reassign, since no other code holds a reference to them.
