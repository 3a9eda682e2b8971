# Supplier risk table: a Dafny model

This project models the bookkeeping core of TruSupply, a small supplier-risk
web application (`app.py`). The application keeps one in-memory table of
supplier rows. It has eight columns: Supplier ID, Supplier Name, Category,
Location, Compliance Score, Financial Score, On-Time Delivery Rate and Risk
Score. Two requests touch the table:

- **Submit** fills in a missing supplier ID (a random 8-character token) and a
  missing name (`Supplier_<id>`). It parses the three input scores and computes
  `round(0.3*compliance + 0.4*financial + 0.3*delivery, 2)`. Then it appends
  exactly one row.
- **Dashboard** coerces the four numeric columns in place, so unparsable cells
  become missing. It then drops every row with a missing numeric cell and
  computes these figures from the survivors:
  - the total, the average risk score, and the high-risk (> 65) and low-risk
    (< 45) counts;
  - the category distribution (`value_counts`);
  - the per-category means of the three input scores (`groupby(...).mean()`);
  - the per-supplier risk trend, with labels and scores.

Modules, one per component:

| file | module | contents |
|---|---|---|
| `wrappers.dfy` | `Wrappers` | `Option` (pandas' NaN is `None`) and `Result` |
| `rounding.dfy` | `Rounding` | `round(x, 2)`: round-half-even to hundredths on exact reals |
| `rows.dfy` | `Rows` | cells, rows, `pd.to_numeric(errors='coerce')` per cell, row and table, cleaned records |
| `stats.dfy` | `Stats` | sum, mean (empty → `None`), min, max, strict threshold counts |
| `ordering.dfy` | `Ordering` | Python's string order; sorted distinct keys as `groupby` lists them |
| `tallies.dfy` | `Tallies` | `value_counts()`: drop missing, count, stable sort by descending count |
| `aggregation.dfy` | `Aggregation` | `dropna`, the dashboard figures, and the lemmas about them |
| `submission.dfy` | `Submission` | ID and name defaults, risk score, the new row or the parse error |
| `store.dfy` | `Store` | class `SupplierTable` with `rows: seq<Row>`: `Append`, `Submit`, `CoerceNumeric` (a loop over the four columns), `Dashboard` |

Choices the model makes explicit:

- `mean` of no values is NaN in pandas; here it is `None`. So `avgRiskScore` is
  `None` exactly when no row survives.
- `value_counts` drops missing categories and sorts by descending count. Pandas
  does not fix the order of equal counts. The model keeps tied categories in
  order of first occurrence, and `Tallies.ValueCountsTies` proves it.
- `groupby("Category")` drops missing categories and sorts its keys in
  ascending order. Python compares strings code point by code point, and a
  proper prefix comes first.
- The trend label is the name, or the ID when the name is missing.
  `fillna` replaces only a missing (NaN) name. An empty-string name stays as
  it is, and the model follows that.
- The generated ID is `str(uuid4())[:8].upper()`. So it is eight characters
  from `0-9A-F`, not any upper-case alphanumeric token.
- The schema has eight columns, counting Risk Score.

## Model

| member | source | states |
|---|---|---|
| `Rounding.Round2` | app.py:106 | `round(x, 2)` has at most two decimals and is within 0.005 of `x` |
| `Rounding.Round2Monotone` | app.py:106 | rounding preserves order |
| `Rounding.Round2WithinCents` | app.py:106 | a value between two two-decimal bounds rounds to a value between them |
| `Rows.Coerce` | app.py:35 | a number stays unchanged; text becomes its parsed number or missing; the result is never text |
| `Rows.CoerceRow` | app.py:33-35 | coercing a row changes only the four numeric cells, each by `Coerce` |
| `Rows.CoerceTable` | app.py:33-35 | the coerced table has the same rows, each coerced by `CoerceRow` (specified by `Rows.CoerceTableIdempotent` and `Store.SupplierTable.CoerceNumeric`) |
| `Rows.CoerceTableIdempotent` | app.py:33-35 | coercing the table twice gives the same table as coercing it once |
| `Rows.CoercedCompleteIffNoneMissing` | app.py:37 | after coercion, a row has all four numbers exactly when `dropna` keeps it (no missing cell) |
| `Stats.Mean` | app.py:41 | the mean is `None` exactly for no values; otherwise mean × count = sum |
| `Stats.RoundedMean` | app.py:41 | the rounded mean is `None` exactly for no values; otherwise it has two decimals |
| `Stats.MeanWithin` | app.py:41 | a mean lies between the minimum and maximum of the values averaged |
| `Stats.RoundedMeanWithin` | app.py:41 | if every value has two decimals, the rounded mean also lies between min and max |
| `Stats.CountAbove` | app.py:42 | counts at most every value; zero exactly when no value exceeds the threshold (strict `>`) |
| `Stats.CountBelow` | app.py:43 | counts at most every value; zero exactly when no value is under the threshold (strict `<`) |
| `Stats.ThresholdBuckets` | app.py:42-43 | below `lo`, in `[lo, hi]` and above `hi` partition the values |
| `Ordering.BelowTotal` | app.py:59 | any two distinct strings are ordered one way or the other |
| `Ordering.BelowTransitive` | app.py:59 | the string order is transitive |
| `Ordering.SortedKeys` | app.py:59 | group keys are strictly ascending and are exactly the distinct input values |
| `Tallies.Present` | app.py:46 | dropping missing values keeps exactly the present ones |
| `Tallies.PresentConcat` | app.py:46 | dropping missing values from a concatenation drops them from each part, so multiplicity and order are kept |
| `Tallies.PresentAppend` | app.py:46 | one cell contributes its value when present and nothing when missing; appending a cell appends its contribution |
| `Tallies.FirstSeen` | app.py:46 | distinct values, exactly those that occur |
| `Tallies.FirstSeenOrder` | app.py:46 | distinct values come in order of first occurrence |
| `Tallies.SortByCount` | app.py:46 | the sort is a permutation, is non-increasing in count and keeps the sum of counts |
| `Tallies.SortByCountStable` | app.py:46 | the sort never reorders tallies with equal counts |
| `Tallies.TalliesSum` | app.py:46-51 | the counts of the distinct values add up to the number of values |
| `Tallies.ValueCounts` | app.py:46 | counts are non-increasing; keys are distinct; counts sum to the present values, at most the cells (keys and counts in `Tallies.ValueCountsKeys` and `Tallies.ValueCountsCounts`) |
| `Tallies.ValueCountsCounts` | app.py:46-51 | each count is positive and equals its key's number of occurrences |
| `Tallies.ValueCountsKeys` | app.py:46-48 | the keys are exactly the non-missing categories |
| `Tallies.ValueCountsTies` | app.py:46 | equal counts keep first-occurrence order |
| `Aggregation.Clean` | app.py:37 | at most as many survivors as rows; a record survives iff its whole row is in the table |
| `Aggregation.CleanConcat` | app.py:37 | cleaning distributes over concatenation, so survivors keep their relative order |
| `Aggregation.CleanSkipsIncomplete` | app.py:37 | cleaning a table with an incomplete row gives the same survivors as without it |
| `Aggregation.CleanOneRow` | app.py:37 | one row survives, unchanged, exactly when all four numeric cells are numbers |
| `Aggregation.DroppedRowIsInvisible` | app.py:37-74 | a row with any bad numeric cell changes no figure of the dashboard |
| `Aggregation.RiskBuckets` | app.py:40-43 | total = survivors ≤ rows; high + low + (45..65 inclusive) = total, so high + low ≤ total |
| `Aggregation.AppendCompleteRow` | app.py:40-74 | a complete row adds one supplier; high iff its risk > 65; low iff < 45; it is appended to the trend |
| `Aggregation.BoundaryScoresInNeitherBucket` | app.py:42-43 | a risk of exactly 45 or 65 counts as neither high nor low |
| `Aggregation.AverageRisk` | app.py:41 | the average is `None` iff no row survives; else the rounded mean, with the mean between min and max |
| `Aggregation.CategoryDistribution` | app.py:46-51 | one tally per distinct surviving category; counts positive, non-increasing, equal to group sizes, sum ≤ total |
| `Aggregation.GroupSize` | app.py:46-59 | a `groupby` group has as many rows as the `value_counts` count of its category |
| `Aggregation.InCategory` | app.py:59 | a group holds exactly the records of its category |
| `Aggregation.InCategoryConcat` | app.py:59 | grouping a concatenation groups each part, so a group keeps its records with their multiplicity, in table order |
| `Aggregation.InCategoryAppend` | app.py:59 | one record is its own group in its category and absent from every other; appending a record extends only its own group |
| `Aggregation.MeansOf` | app.py:59 | each of a category's three means is missing exactly when no record has that category, and has two decimals otherwise (range in `Aggregation.CategoryScoresSpec`) |
| `Aggregation.CategoryScores` | app.py:59-65 | each entry names a category some record has and holds that category's means (order and coverage in `Aggregation.CategoryScoresSpec`) |
| `Aggregation.TrendLabel` | app.py:71 | the label is the supplier's name when present, else its ID (`fillna`) |
| `Aggregation.TrendLabels` | app.py:71 | one label per record, in order, each given by `TrendLabel` |
| `Aggregation.Summarize` | app.py:40-74 | every survivor is listed and counted once; one trend entry per survivor; average missing iff none; high + low ≤ total; distribution sums to at most the total |
| `Aggregation.Aggregate` | app.py:37-74 | lists a supplier exactly when its whole complete row is in the table; total ≤ rows (figures in the lemmas below) |
| `Aggregation.CategoryScoresSpec` | app.py:59-65 | one entry per category, strictly ascending; each mean is the rounded group mean, within group min/max |
| `Aggregation.CategoryScoresOfTable` | app.py:46-61 | the score chart and the distribution list the same categories; the score chart is ascending with no category twice |
| `Aggregation.TrendAligned` | app.py:70-74 | labels and scores have one entry per survivor, in order; label = name, else ID |
| `Aggregation.DashboardIdempotent` | app.py:33-37 | a second dashboard request on the unchanged table yields the same figures |
| `Submission.SupplierId` | app.py:98 | a given ID is kept; an empty one becomes the generated token itself; never empty |
| `Submission.SupplierName` | app.py:99 | a given name is kept; an empty one becomes `Supplier_` + ID; never empty |
| `Submission.ComputeRiskScore` | app.py:106 | the risk score has two decimals and is within 0.005 of the weighted sum |
| `Submission.RiskScoreInRange` | app.py:106 | scores in a two-decimal range (e.g. 0 to 100) give a risk score in that range |
| `Submission.RiskScoreExample` | app.py:106 | compliance 80, financial 70, delivery 90 give risk 79 |
| `Submission.NewRow` | app.py:98-117 | succeeds iff all three scores parse; a new row has numbers in all four numeric cells and a name (contents in `Submission.NewRowSpec`) |
| `Submission.NewRowSpec` | app.py:98-117 | succeeds iff all three scores parse, else names the first bad one; the row holds the inputs, the defaults (the token itself for an empty ID) and the risk score |
| `Store.SupplierTable.constructor` | app.py:16-19 | without a spreadsheet, the table starts empty |
| `Store.SupplierTable.Append` | app.py:119 | the table grows by one; the new row is last; earlier rows are unchanged |
| `Store.SupplierTable.Submit` | app.py:96-122 | on success, appends exactly the new row and returns its risk score; on a parse error, leaves the table unchanged |
| `Store.SupplierTable.CoerceNumeric` | app.py:33-35 | coerces the four numeric columns in place; row count and text columns are unchanged |
| `Store.SupplierTable.Dashboard` | app.py:29-79 | leaves the table coerced; returns the figures of the coerced table |
| `Store.SubmissionReachesDashboard` | app.py:98-119 | after a successful submit, the next dashboard has one more supplier, last, labelled with its name |

## Left out

- Flask routing, `render_template` and access to the request form are left
  out, because they are web plumbing (app.py:1-7, 24-26, 81-93, 122, 124-125).
  A form field that is absent raises an HTTP 400, which is not modelled; every
  form field is taken as present.
- Excel persistence is left out: `pd.read_excel`, `to_excel` and `save_data`
  (app.py:10-22, 120) are file I/O in a library outside the model. So the
  persist-and-reload round trip is not modelled. Only the empty starting table
  is.
- The JSON payload formatting, the colour palette, the series names and the
  line tension are left out (app.py:47-79). They are presentation. The model
  keeps the label and data sequences.
- The randomness of `uuid.uuid4()` is left out. The token is a parameter of
  `Submit`, constrained to eight upper-case hexadecimal digits.
- `pd.to_numeric` parsing text and Python's `float()` are parameters of type
  `string -> Option<real>`. The model does not define which strings they
  accept. Strings that parse to NaN or infinity (`"nan"`, `"inf"`) are outside
  the model, because values are reals.
- IEEE floating point is left out. Sums, weights, means and rounding are exact
  reals, and `round(x, 2)` is round-half-even on the exact value. numpy's
  multiply-round-divide rounding and the binary representation of 0.3 and
  0.4 can differ from this in the last digit.
- Cell types in text columns are limited: a text column holds a string or is
  missing. A spreadsheet can load numbers or dates into those columns; that
  is not represented.
- The unsynchronised global table that concurrent requests share (app.py:30,
  97) is left out. Each request is modelled as one sequential method call.
