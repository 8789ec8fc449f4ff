# Digital privacy dashboard: the filter-and-aggregate pipeline

A Dafny model of the logic of a single-page survey dashboard (`app.py`). The
dashboard loads survey responses, recognises an optional date column, filters the
rows by age group, platform and an inclusive date range, computes the record
count, column means, per-platform means and an awareness leaderboard, writes a
one-page PDF summary with the top five leaderboard rows, and appends feedback
notes to a log. Everything else in the program is page layout and chart drawing.

Modules:

- `Wrappers`: `Option`, used for undefined means (pandas' NaN) and missing dates (NaT).
- `Text`: ASCII lower-casing, substring containment, Python's `strip` and its string order.
- `Records`: the survey row and its numeric columns. Dates are day numbers.
- `DateColumn`: the load-time scan for a date column, as a loop with `break`.
- `Filters`: the three filter steps as order-preserving selections, and what they select.
- `Aggregates`: means over exact reals, the gauge, `groupby("Platform").mean()`, the leaderboard.
- `Report`: the PDF's figures and its leaderboard lines, as the drawing loop.
- `Feedback`: the feedback log as a class whose `Submit` method appends or refuses.

Points where the behaviour of the code is easy to misread:

- pandas returns NaN for the mean of an empty view, and app.py:171 substitutes 0
  only for the gauge. The metric tiles (app.py:135-137) and the PDF
  (app.py:214-216) show NaN. The model returns `None` for those means and 0 only
  from `Gauge`.
- `sort_values` (app.py:188) promises no order among equal means. The model sorts
  with its own insertion sort. `LeaderboardTieIndependent` proves that every
  descending order of the groups shows the same column of means, so no property
  depends on the sort's tie order.
- `groupby` sorts its group keys by default, so the per-platform tables start out
  in ascending platform order. `GroupKeys` models that.

## Model

| member | source | states |
|---|---|---|
| `Text.Lower` | app.py:92 | the lower-cased name keeps its length, has no capital letter left, maps each capital to its small letter and keeps every other character |
| `Text.Contains` | app.py:92 | `pat in s` holds exactly when `pat` occurs at some position of `s` |
| `DateColumn.FirstDateIndex` | app.py:91-93 | the position found is a column whose lower-cased name contains "date", and no earlier column's name does; with no result, no column's name does |
| `DateColumn.DetectDateColumn` | app.py:90-98 | the scan yields a column exactly when the first date-like column exists and parses. That column is the result. A failed parse gives no column, and later columns are not tried |
| `Filters.Select` | app.py:116 | boolean-mask selection gives an order-preserving subsequence. It holds exactly the rows satisfying the mask, each as many times as in the input |
| `Filters.ByAge` | app.py:115-116 | with no age group picked the rows are unchanged; otherwise the step keeps, in order, exactly the rows whose age group is picked |
| `Filters.ByPlatform` | app.py:117-118 | with no platform picked the rows are unchanged; otherwise the step keeps, in order, exactly the rows whose platform is picked |
| `Filters.ByDate` | app.py:119-121 | the step is the selection of the rows with a date d such that start <= d <= end: it keeps them in order, each as often as in its input, and drops rows without a date |
| `Filters.FilterView` | app.py:114-121 | the three steps in sequence are one selection by the conjunction of the active filters. The view is a subsequence of the data. A row is in it iff the age selection is empty or holds its age group, and the platform selection is empty or holds its platform, and, when a date column and range exist, start <= date <= end. Rows keep their multiplicity |
| `Filters.EmptySelectionKeepsAll` | app.py:114-119 | with no ages, no platforms and no active date filter, the view is the whole dataset |
| `Filters.AddingValuesKeepsRows` | app.py:115-118 | adding values to a non-empty age or platform selection never removes a row: the old view is a subsequence of the new one |
| `Filters.FirstValueCanNarrow` | app.py:115-116 | an empty age selection restricts nothing, so picking a first age group removes every kept row of any other age group; `AddingValuesKeepsRows` therefore needs its non-empty condition |
| `Filters.DateBounds` | app.py:108-109 | the recovered bounds are the earliest and latest dates present, and they enclose every dated row. There are no bounds exactly when no row is dated |
| `Filters.DefaultRangeKeepsAll` | app.py:107-121 | when every row is dated, the picker's default range (min to max) with empty multi-selects keeps every row |
| `Aggregates.Mean` | app.py:135-137 | a mean is undefined exactly when there are no values |
| `Aggregates.MeanBounds` | app.py:135-137 | a defined mean lies within any bounds that hold for all of its values |
| `Aggregates.ColumnMeanBounds` | app.py:135-137 | bounds on a column's values bound that column's mean |
| `Aggregates.Summarize` | app.py:134-137 | the "Records" metric is the length of the view, and each mean is undefined exactly when the view is empty |
| `Aggregates.Gauge` | app.py:168-171 | the gauge shows 0 for an empty view and the mean awareness otherwise |
| `Aggregates.GaugeOnScale` | app.py:171-175 | if every awareness answer is within 0 to 5, the gauge value is within the gauge's 0 to 5 axis |
| `Text.LessIrreflexive` | app.py:143 | no string sorts before itself in Python's string order, used for the group keys |
| `Text.LessTransitive` | app.py:143 | Python's string order is transitive |
| `Text.LessTotal` | app.py:143 | of two different strings, one sorts before the other |
| `Aggregates.GroupKeys` | app.py:143 | the group keys are strictly ascending, so each appears once, and they are exactly the platforms present in the view |
| `Aggregates.Groups` | app.py:143 | the per-platform table has one row per distinct platform in the view, in ascending platform order. Each row holds the mean of that platform's rows |
| `Aggregates.InsertByValue` | app.py:188 | inserting into a descending list keeps it descending and adds exactly that row |
| `Aggregates.SortByValueDesc` | app.py:188 | the descending sort is non-increasing by value and a permutation of its input |
| `Aggregates.SortKeepsDistinct` | app.py:188 | sorting rows whose platforms are distinct keeps them distinct |
| `Aggregates.Leaderboard` | app.py:188 | the leaderboard is non-increasing by unrounded mean awareness and has exactly one row per platform in the view. Each row holds that platform's mean awareness |
| `Aggregates.DescendingOrdersAgree` | app.py:188 | two non-increasing orderings of the same rows have equal values at every position |
| `Aggregates.LeaderboardTieIndependent` | app.py:188 | any descending order of the awareness groups, whatever its tie order, shows the same values as the leaderboard |
| `Report.GeneratePdf` | app.py:206-224 | the PDF's record count is the view's length and its three means are the dashboard's. It draws min(5, \|lb\|) lines, line i being leaderboard row i at height 600 - 16*i. For any non-increasing leaderboard, whatever its tie order, the lines are in non-increasing order, and no leaderboard row left out has a higher mean than a listed one |
| `Text.TrimStart` | app.py:271 | the result is a suffix of the input, everything removed is whitespace, and the result does not start with whitespace |
| `Text.TrimEnd` | app.py:271 | the result is a prefix of the input, everything removed is whitespace, and the result does not end with whitespace |
| `Text.TrimmedPiece` | app.py:271 | cutting only whitespace from the front and then from the back of a text leaves a piece of it with only whitespace around it |
| `Text.Strip` | app.py:271 | the result is the piece of the text left after removing whitespace at both ends: only whitespace lies around it, and it neither starts nor ends with whitespace |
| `Text.IsBlank` | app.py:271 | `text.strip() == ""` holds exactly when every character is whitespace |
| `Feedback.FeedbackLog.constructor` | app.py:279-280 | with no log file there are no entries |
| `Feedback.FeedbackLog.Existing` | app.py:276-277 | an existing log file provides its entries as read |
| `Feedback.FeedbackLog.Submit` | app.py:270-281 | a blank text is refused and the log does not change. Any other text is saved: the log becomes the previous entries followed by exactly one entry with the given timestamp and the text as typed, and the log file then exists |

## Left out

- Page configuration, CSS and HTML banners, tabs, widgets, tips and about text: presentation only.
- Plotly figure construction (bar, scatter, pie, gauge styling) and the privacy-tools pie distribution: chart rendering by a foreign library.
- ReportLab fonts, the title and attribution strings, the divider and byte buffers: only the PDF's figures and leaderboard lines are modelled.
- Reading the dataset file, its missing-file error and `st.stop`: file I/O. The model starts from the rows in memory.
- CSV export and UTF-8 encoding of the view: serialisation by pandas. The export is the view itself.
- Reading and writing `feedback.csv`: the log is held in memory, and an existing file is taken to read back the entries it was written with. The code does not always do so: `pd.read_csv` (app.py:277) reads an earlier entry such as "NA" or "null" as NaN, and `to_csv` (app.py:281) writes it back as an empty field, so such an entry is not kept intact. The model keeps every earlier entry as it was.
- `datetime.now()`: timestamps are parameters of `Submit`, so "the timestamp is not before the submission" is not stated.
- `pd.to_datetime`: parsing a column is the parameter `parses`, and parsed dates are day numbers. Time of day is not modelled, so a timestamp later on the end day, which the code would exclude, cannot arise.
- Rounding to two decimals and NaN arithmetic: means are exact reals, and an undefined mean is `None`. Rounding comes after the leaderboard sort, so it does not change the order.
- A date range with only its start picked: `st.date_input` then returns a one-element tuple, which passes the test at app.py:119, and `date_range[1]` at app.py:120 raises IndexError. The model's `DateRange` always has both ends, so this crash is not modelled. An empty tuple is the model's `range == None`.
- Leaderboard tie order: pandas does not promise one, and the model's choice is not relied on.
- `Text.Lower`: maps only ASCII capitals, where Python lower-cases all of Unicode. No other characters lower-case to the letters of "date", so the date-name test agrees for ordinary names.
- Python's `str.isspace` is taken as the fixed list of code points it holds for (tab to carriage return, 0x1C to space, 0x85, 0xA0, 0x1680, 0x2000 to 0x200A, 0x2028, 0x2029, 0x202F, 0x205F, 0x3000).
- Missing cells outside the date column. A missing age group or platform stops the dashboard at app.py:104-105: `sorted` of the unique values, which mix strings with NaN, raises TypeError before any filter runs. The model's non-optional age group and platform are therefore the only case that reaches the filters. Missing numeric cells, which `mean()` skips (app.py:135-137), are not represented: every model row has the three numbers.
- Values outside the expected ranges are not validated, matching the code. Bounds on means are stated only for given bounds on the values.
