# Billing report model

This project models `PRUEBA_NHD_COTAS1.py`, a Streamlit page for NHDCOTAS billing data, in Dafny. The page:

- checks a user name and password against a user map;
- loads an uploaded Excel sheet of billing rows;
- offers a service-code selector, a status multiselect and a period range slider;
- filters the rows with those choices;
- shows a trend table, with the billed amount and the number of contracts per period;
- shows a top-10 ranking of service codes by billed amount.

The model covers that pipeline over a sequence of rows, together with the credential check. It leaves out the widgets and charts that surround it.

There are nine modules:

| module | contents |
|---|---|
| `Wrappers` | `Option` |
| `Text` | Python's string order and `sorted(set(...))`; decimal digits; `str()` of an integer |
| `Periods` | `%Y-%m` parsing and formatting of a billing period |
| `Auth` | `authenticate` |
| `Ingest` | `load_data`, both as a function and as a method with a loop over the rows |
| `Selectors` | the option lists and the slider's default range |
| `Filter` | the row mask, both as a function and as a method that builds and narrows a boolean array in place |
| `Aggregate` | the trend `groupby` and the ranking |
| `Report` | one page render, tying the modules together |

A period is a `(year, month)` pair. For text written in ASCII digits, the parser accepts what pandas accepts for the format `%Y-%m`:

- exactly four year digits;
- then a dash;
- then a month written `01`-`12`, or as one digit `1`-`9`;
- nothing after the month;
- and the month must lie between 1677-10 and 2262-04, the months whose first day fits in a nanosecond timestamp.

Every other such string becomes `None`, which is the `NaT` that `errors='coerce'` produces. The inputs pandas reads differently are listed under "## Left out".

Amounts are integers. An empty `MTOTOTFAC` cell or an empty `SERCTO` cell is `None`:

- `sum` skips the empty amount cells;
- `count` counts only the non-empty contract cells.

## Model

| member | source | states |
|---|---|---|
| Auth.Authenticate | PRUEBA_NHD_COTAS1.py:8-12 | true exactly when the user name is a key of the user map and its stored password equals the given one; false for an unknown user and for a wrong password |
| Auth.OnePasswordPerUser | PRUEBA_NHD_COTAS1.py:10 | at most one password is accepted for a given user |
| Auth.OtherEntriesIrrelevant | PRUEBA_NHD_COTAS1.py:10 | adding or changing another user's entry does not change the verdict for this user |
| Periods.NotAfter | PRUEBA_NHD_COTAS1.py:77 | `PERIODO >= start_date` and `PERIODO <= end_date` on month-start timestamps: an earlier year, or the same year and a month no later |
| Periods.Parse | PRUEBA_NHD_COTAS1.py:48 | a period that parses is a valid month inside the timestamp range |
| Periods.Format | PRUEBA_NHD_COTAS1.py:50 | the key has seven characters, with a dash at position 4 |
| Periods.ParseFormat | PRUEBA_NHD_COTAS1.py:48-50 | parsing the key of a period gives the period back, and the key is canonical |
| Periods.FormatParse | PRUEBA_NHD_COTAS1.py:48-50 | formatting a parsed string gives the string back, with a single-digit month padded to two digits |
| Periods.FormatOrder | PRUEBA_NHD_COTAS1.py:74-77 | periods are ordered in time exactly as their keys are ordered as text, and two periods are equal exactly when their keys are equal |
| Text.Less | PRUEBA_NHD_COTAS1.py:62 | Python's `str <` as `sorted` uses it: the first differing character decides by code point, and a proper prefix comes first |
| Text.LessTotal | PRUEBA_NHD_COTAS1.py:62 | the string order used by `sorted` is total |
| Text.LessTransitive | PRUEBA_NHD_COTAS1.py:62 | the string order is transitive |
| Text.SortedDistinct | PRUEBA_NHD_COTAS1.py:62-68 | `sorted(col.unique())` is strictly ascending and holds exactly the values of the column |
| Text.SortedDistinctEmpty | PRUEBA_NHD_COTAS1.py:68-72 | the options list is empty exactly when the column is empty |
| Text.AscendingUnique | PRUEBA_NHD_COTAS1.py:62-68 | only one strictly ascending list holds a given set of values, so the options are determined by the column's values |
| Text.IntToStringInjective | PRUEBA_NHD_COTAS1.py:47 | `astype(str)` maps different whole-number codes to different strings |
| Ingest.Normalize | PRUEBA_NHD_COTAS1.py:47-50 | a row with a parsed period carries that period's canonical key |
| Ingest.CleanOne | PRUEBA_NHD_COTAS1.py:48-49 | a raw row is dropped exactly when its period does not parse |
| Ingest.CodeAsText | PRUEBA_NHD_COTAS1.py:47 | a text code is kept as it is; a whole-number code becomes its decimal text, non-empty and with a leading `-` exactly when negative |
| Ingest.HasColumns | PRUEBA_NHD_COTAS1.py:45 | the `usecols` test: every one of the five required columns is in the header, in any order and among any others |
| Ingest.Clean | PRUEBA_NHD_COTAS1.py:47-50 | no rows are added, and every row kept is well formed |
| Ingest.CleanAppend | PRUEBA_NHD_COTAS1.py:49 | cleaning is row by row: cleaning two parts of a sheet and concatenating the results is cleaning the whole; with `CleanSingle` this keeps each row whose period parses exactly once, in sheet order |
| Ingest.Load | PRUEBA_NHD_COTAS1.py:41-54 | `None` exactly when the file is unreadable or lacks one of the five columns; otherwise well-formed rows, at most as many as the sheet's rows |
| Ingest.LoadData | PRUEBA_NHD_COTAS1.py:41-54 | the row-by-row loop returns exactly `Load` of the workbook |
| Ingest.CleanSingle | PRUEBA_NHD_COTAS1.py:48-49 | a single row survives exactly when its period parses |
| Ingest.CleanKeeps | PRUEBA_NHD_COTAS1.py:48-50 | every raw row whose period parses is kept, normalised |
| Ingest.CleanOrigin | PRUEBA_NHD_COTAS1.py:47-50 | every kept row is the normalisation of a raw row that parsed to the row's period |
| Ingest.CleanAllParse | PRUEBA_NHD_COTAS1.py:49 | when every period parses, no row is lost |
| Ingest.CleanNoneParse | PRUEBA_NHD_COTAS1.py:48-49 | when no period parses, the result is an empty table and not an error |
| Selectors.CodeOptions | PRUEBA_NHD_COTAS1.py:62 | `"Todos"` first, then the distinct codes in strictly ascending order, exactly the codes of the table |
| Selectors.StatusOptions | PRUEBA_NHD_COTAS1.py:65-66 | the distinct statuses, strictly ascending, exactly those of the table |
| Selectors.PeriodOptions | PRUEBA_NHD_COTAS1.py:68 | the distinct period keys, strictly ascending, exactly those of the table |
| Selectors.PeriodOptionCanonical | PRUEBA_NHD_COTAS1.py:68 | every slider option is a canonical `YYYY-MM` key |
| Selectors.PeriodOptionParses | PRUEBA_NHD_COTAS1.py:68-75 | every slider option parses back to the period of some row |
| Selectors.PeriodOptionsChronological | PRUEBA_NHD_COTAS1.py:68 | later options are strictly later months |
| Selectors.DefaultRangeAsWritten | PRUEBA_NHD_COTAS1.py:72 | `(periodos[0], periodos[-1])` raises `IndexError` exactly when there are no periods |
| Selectors.UnparsablePeriodsCrashSlider | PRUEBA_NHD_COTAS1.py:48-72 | a readable sheet whose only period is `2024/01` loads as an empty table, and the slider default then raises |
| Selectors.DefaultRange | PRUEBA_NHD_COTAS1.py:72 | no range for an empty table; otherwise the first and the last option |
| Selectors.DefaultRangeCovers | PRUEBA_NHD_COTAS1.py:72 | every option lies between the two ends of the default range |
| Filter.InWindow | PRUEBA_NHD_COTAS1.py:77 | the status and period part of the mask; a row passes only when some status is selected and the range is not empty |
| Filter.Keep | PRUEBA_NHD_COTAS1.py:77-79 | the full mask: only rows in the window pass; with `"Todos"` or without the code test it is the window; a row of another code fails |
| Filter.Select | PRUEBA_NHD_COTAS1.py:80 | `df.loc[mask]`: at most as many rows as the table, and every row it returns passes the mask |
| Filter.FilterRows | PRUEBA_NHD_COTAS1.py:77-80 | building the mask, narrowing it in place by code and selecting the rows gives exactly `Select`; without the code test (`byCode` false) it is the `top_mask` of line 103 |
| Filter.SelectMember | PRUEBA_NHD_COTAS1.py:77-80 | a row is in the result exactly when it is in the table, its status is selected, its period is in range, and the selector is `"Todos"` or the row's code |
| Filter.SelectSubsequence | PRUEBA_NHD_COTAS1.py:80 | the result is a subsequence of the table: no reordering and no duplication |
| Filter.SelectAppend | PRUEBA_NHD_COTAS1.py:77-80 | filtering is row by row: filtering two parts and concatenating is filtering the whole |
| Filter.SelectNoStatus | PRUEBA_NHD_COTAS1.py:77 | an empty status selection leaves no rows |
| Filter.SelectEmptyRange | PRUEBA_NHD_COTAS1.py:77 | a range whose start is after its end leaves no rows |
| Filter.SelectAll | PRUEBA_NHD_COTAS1.py:77-80 | when every status is selected, the range covers every period and the code test is off, the whole table is kept |
| Filter.ViewsAgreeOnAllCodes | PRUEBA_NHD_COTAS1.py:103 | with `"Todos"` the trend rows and the ranking rows are the same rows |
| Filter.TrendViewNarrowsRankingView | PRUEBA_NHD_COTAS1.py:103 | the trend rows are a subsequence of the ranking rows |
| Filter.RankingViewIgnoresCode | PRUEBA_NHD_COTAS1.py:103 | the ranking rows do not depend on the code selector |
| Filter.WindowByKeys | PRUEBA_NHD_COTAS1.py:74-77 | comparing the parsed slider ends with a row's period is comparing the keys as text |
| Aggregate.GroupTotal | PRUEBA_NHD_COTAS1.py:83 | one cell of a `groupby` aggregation: the measure summed over the rows that carry the key |
| Aggregate.GroupTotalAbsent | PRUEBA_NHD_COTAS1.py:83 | a key that no row carries has an empty group |
| Aggregate.GroupTotalAll | PRUEBA_NHD_COTAS1.py:83 | when every row carries the key, its group total is the table's total |
| Aggregate.GroupsFor | PRUEBA_NHD_COTAS1.py:104 | `groupby('CODSERV')['MTOTOTFAC'].sum()`: one group per code given, in that order, holding the code's summed amount |
| Aggregate.Conservation | PRUEBA_NHD_COTAS1.py:83 | when every key of the rows occurs once in the key list, the group totals add up to the table's total |
| Aggregate.Trend | PRUEBA_NHD_COTAS1.py:83 | one trend row per distinct period key of the rows, in strictly ascending key order, and no other |
| Aggregate.TrendRowTotals | PRUEBA_NHD_COTAS1.py:83 | each trend row holds the sum of the amounts and the count of present contracts of its own period |
| Aggregate.TrendEmpty | PRUEBA_NHD_COTAS1.py:82-83 | the trend is empty exactly when the rows are |
| Aggregate.TrendConservation | PRUEBA_NHD_COTAS1.py:82-83 | the trend's amounts add up to the rows' total amount, and its counts add up to their number of contracts |
| Aggregate.SortByTotal | PRUEBA_NHD_COTAS1.py:104 | the sorted groups are a permutation of the groups, ordered by non-increasing total |
| Aggregate.SortedGroups | PRUEBA_NHD_COTAS1.py:104 | the groups, non-increasing by total, with distinct codes of the rows, each carrying its own code's total |
| Aggregate.Ranking | PRUEBA_NHD_COTAS1.py:104 | at most ten rows, non-increasing by total, distinct codes, each a code of the rows with that code's summed amount |
| Aggregate.SortedGroupsComplete | PRUEBA_NHD_COTAS1.py:104 | every code of the rows has its group, with its summed amount, among the sorted groups |
| Aggregate.TopDominance | PRUEBA_NHD_COTAS1.py:104 | in a non-increasing list, a group missing from the first ten comes after a full ten and is no larger than the tenth |
| Aggregate.RankingDominance | PRUEBA_NHD_COTAS1.py:104 | a code left out of the ranking is left out only when ten codes are listed, and its total is at most the tenth total |
| Aggregate.RankingSize | PRUEBA_NHD_COTAS1.py:104 | the ranking lists min(10, number of distinct codes) rows |
| Report.CriteriaOf | PRUEBA_NHD_COTAS1.py:74-75 | the filter bounds are the parsed slider keys |
| Report.BuildView | PRUEBA_NHD_COTAS1.py:77-104 | the trend is shown exactly when the filtered rows are not empty, and it conserves their amount; the ranking is taken over the rows filtered without the code test |
| Report.RankingIgnoresCodeSelector | PRUEBA_NHD_COTAS1.py:103-104 | changing the code selector does not change the ranking |
| Report.AllStatuses | PRUEBA_NHD_COTAS1.py:66 | the multiselect default `default=estado_options`: exactly the statuses of the table's rows, so it holds the status of every row |
| Report.DefaultCriteria | PRUEBA_NHD_COTAS1.py:62-72 | the opening selection is `"Todos"`, every status, and the first and last period options; there is none for an empty table |
| Report.DefaultRangeAdmits | PRUEBA_NHD_COTAS1.py:68-77 | every row's period lies between the ends of the default range |
| Report.DefaultCriteriaAdmits | PRUEBA_NHD_COTAS1.py:66-77 | the opening selection admits every row |
| Report.DefaultSelectionKeepsAll | PRUEBA_NHD_COTAS1.py:62-80 | with the opening selection, the filter keeps the whole table |
| Report.Render | PRUEBA_NHD_COTAS1.py:58-104 | a load error exactly when loading fails; the no-data screen exactly when the table is empty; otherwise the view of the selection |

## Left out

- Periods.Parse: accepts only ASCII digits `0`-`9`. Pandas' fallback `strptime` pattern matches `%Y` with `\d`, so a year in other Unicode decimal digits (full-width `２０２４-01`) parses there and is `None` here. Pandas 2 also reads `"today"` and `"now"` as the current timestamp whatever the format. The clock is outside the model.
- The Streamlit page itself is not modelled (lines 14-38, 56-60, 63, 66, 69-71, 85-86, 101, 106-107, 116). That covers the login form, `st.session_state`, `st.rerun`, `st.stop`, widget rendering and messages. The widget values are inputs: the code, the status set and the two slider keys.
- `st.secrets` is not modelled. The user map is a parameter of `Authenticate`.
- `pd.read_excel` is not modelled. The uploaded file is a `Workbook`: either unreadable, or a header with the sheet's rows restricted to the five columns. Any read failure is `Unreadable`.
- `@st.cache_data` is not modelled. It only affects speed.
- The Plotly charts are not modelled (lines 88-99, 109-114).
- Amounts are integers. Floating-point rounding of the sums is not modelled.
- A `CODSERV` cell is text or a whole number. Two readings of a cell are not modelled:
  - pandas reads a code column that holds an empty cell as floats, which `astype(str)` renders as `101.0` or `nan`;
  - a float code.
- An empty `ESTADO` cell is not modelled. pandas reads it as a float `NaN`, and `sorted` at line 65 can then raise on the mix of text and float.
- An Excel date cell in `PERIODO` is not modelled; the model's `PERIODO` is always text. `pd.to_datetime` at line 48 passes such a value through with its day and time, and `strftime` at line 50 still gives it a `YYYY-MM` key. The test `PERIODO <= end_date` at lines 77 and 103 compares against the first instant of the end month. So a row dated after the 1st of the last selected month drops out of both views, although the slider offers its key. Older pandas versions turn such a cell in a text column into `NaT`, and the row is dropped at line 49.
- `Text.Less` compares characters by code point. The model has no Unicode normalisation.
- Aggregate.Ranking: the order among equal totals is not specified. `sort_values` uses a sort that is not stable (line 104), so the code promises no tie order. The model sorts by insertion, and its contracts state only the non-increasing order and the permutation.
- The slider hands back only keys from its option list. `Report.Render` and `Report.CriteriaOf` therefore require keys that parse. A slider end that does not parse is not modelled.
- The code accepts an empty status selection and shows the no-data warning and an empty ranking (`Filter.SelectNoStatus`). The model follows the code, not a design that would demand at least one status.

## Findings

| source | as written | input that shows it | evidently intended | confidence | as-written member | corrected member |
|---|---|---|---|---|---|---|
| PRUEBA_NHD_COTAS1.py:72 | `value=(periodos[0], periodos[-1])` indexes the period list without checking it. `load_data` returns an empty table, not `None`, when no period parses or the sheet has no rows, so `IndexError` escapes outside the `try` of `load_data`. | a readable sheet with the five columns whose only row has `PERIODO` = `2024/01` | report no data instead of building the slider | not executed | Selectors.UnparsablePeriodsCrashSlider | Selectors.DefaultRange |

`Report.Render` and `Report.DefaultCriteria` use the corrected `Selectors.DefaultRange`. An empty table gets the no-data screen.
