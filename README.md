# Indian agriculture and rainfall Q&A: a Dafny model of the answering core

app.py is a small Streamlit page. It answers questions such as "Average
rainfall in Kerala" or "Top crops in Punjab" from three data frames:
- crop production
- rainfall (IMD 2017)
- a third file of crop and rainfall data already merged

A question passes through two steps. `understand_query` reads it into a
dataset, an action and a dictionary of filters (state, crop, years).
`generate_answer` then picks the matching data frame and narrows it by the
filters. It computes an average, a maximum, the top three crops or a trend,
and words the result as a sentence with its source.

The project models both steps and the button handler that chains them.

## Modules

- `Wrappers`: `Option` and `Result`.
- `Text`:
  - ASCII lower-casing and `str.title`
  - substring search (`w in s`), with a positional characterisation
  - `str` of integers and `str.join`
- `Interpreter`: `understand_query`.
  - The method `UnderstandQuery` follows the source's assignments and its two overwriting loops.
  - It is proved equal to the function `Interpret`.
  - The action chain is also proved equal to an independent first-match decision table (`FirstRule` over `ActionRules`).
  - The year regex `\b(19|20)\d{2}\b` under `re.findall` is modelled as a scan (`FindYears`). The scan is proved to find every match position.
- `Tables`:
  - a data frame is its set of present columns plus its rows; a row has a field exactly when its table has that column
  - boolean-mask selection (`Where`)
  - the subsequence order
- `Aggregates`: the pandas reductions the answers use.
  - `sum`
  - `idxmax`
  - `groupby("Crop")["Production"].sum().sort_values(ascending=False).head(3)`
- `Answer`: `generate_answer`.
  - `GenerateAnswer` reassigns `df` step by step as the source does. It is proved equal to `Render(Respond(...))`.
  - `Respond` gives the abstract reply, and `Render` words it.
  - A branch that reads a column the data frame lacks raises pandas' `KeyError`. This is `Failure(column)`.
- `Pipeline`:
  - the "Get Answer" handler (app.py:175-181)
  - end-to-end properties of a question's answer

## Behaviour of the code that the model keeps

- **Years.** The years filter is meant to hold the years a question names, but the code disagrees and the model follows the code. `re.findall` with one capturing group returns the group, not the whole match. So `filters["years"]` holds 19 or 20 (as ints), never the full year. The model does the same: `YearsFilter` proves every element is 19 or 20. `Pipeline.YearQuestionFindsNothing` proves the consequence: a question naming a year finds no data in a table of real years.
- **Merged dataset.** The third branch of the dataset chain (`"rainfall"` and `"crop"`) can never be taken. Any query containing "rainfall" already matched "rain" in the first branch. `Interpreter.DatasetChoice` proves the chosen dataset is never merged. `Pipeline.TrendNeverAnswered` proves that a trend question therefore never gets trend data.
- **Empty answers.** `result` starts as `""`. It stays empty when an average or maximum question matches neither the rainfall nor the crop branch, for instance a question that names no dataset. So an answer is not always a non-empty sentence:
  - `Answer.BlankExactly` characterises exactly when the answer is empty.
  - `Pipeline.MeanIsBlank` exhibits the question "mean".
- **Errors.** The maximum, top and trend branches read columns they never test, so pandas raises `KeyError` on data frames lacking them. `Answer.KeyErrorExactly` characterises when that happens.

## Model

| member | source | states |
|---|---|---|
| Text.Lower | app.py:47 | `query.lower()` has the query's length and lower-cases each character; nothing else changes |
| Text.LowerIdempotent | app.py:47 | lower-casing an already lower-cased query changes nothing |
| Text.Title | app.py:83 | `s.title()` keeps length and non-letters; a letter starting a word becomes upper case, a letter after a letter lower case |
| Text.LowerOfTitle | app.py:83 | title-casing a name and then lower-casing it gives the lower-cased name, so the title-cased filter compares equal to the list entry |
| Text.ContainsIff | app.py:52-86 | the substring test `w in s` holds exactly when `w` occurs at some position of `s` |
| Text.ContainsTransitive | app.py:52-57 | a query containing a word contains every block of that word ("rainfall" contains "rain") |
| Interpreter.UnderstandQuery | app.py:46-92 | the method, with its branch chains and overwriting loops, returns exactly `Interpret(query)` |
| Interpreter.FirstRule | app.py:59-72 | a keyword decision table yields the action of the first rule with a hit, or the default when none hits |
| Interpreter.ActionIsFirstMatch | app.py:59-72 | the action if-chain is the first-match decision table `ActionRules` with default `general` |
| Interpreter.ActionChoice | app.py:59-72 | the chosen action is that of the first rule whose keyword occurs, and `general` when none does |
| Interpreter.DatasetChoice | app.py:52-57 | the dataset is rainfall iff "rain" or "imd" occurs; crop iff not, and "crop", "production" or "yield" occurs; none iff none of them occurs; never merged; always rainfall when "rainfall" occurs |
| Interpreter.LastMatch | app.py:81-86 | the overwriting loop leaves no value iff no entry occurs, and otherwise the last entry in list order that occurs |
| Interpreter.StateFilter | app.py:74-83 | `filters["state"]` is present iff some listed state occurs in the query, and is then the title-cased last one |
| Interpreter.CropFilter | app.py:84-86 | `filters["crop"]` is present iff some listed crop occurs, and is then the title-cased last one |
| Interpreter.FindYears | app.py:88 | every value `findall` collects is the captured 19 or 20 |
| Interpreter.FindYearsAllMatches | app.py:88 | the left-to-right scan that resumes after each match collects the group of every match position, in order |
| Interpreter.MatchPositionsSpec | app.py:88 | the match positions are exactly the positions where the pattern matches, strictly increasing |
| Interpreter.YearsFilter | app.py:88-90 | for the lower-cased query, `filters["years"]` is present iff the pattern matches somewhere; it lists the groups of all matches, each 19 or 20 |
| Interpreter.CaseInsensitive | app.py:47 | two queries differing only in letter case are understood identically |
| Interpreter.LowerCasedQuery | app.py:47 | understanding the lower-cased query gives the same result |
| Tables.Where | app.py:109-113 | a boolean mask keeps, in order, each row that satisfies it (as often as it occurs) and drops every other |
| Tables.WhereWellFormed | app.py:109-113 | a masked data frame is still rectangular |
| Tables.SubsequenceTransitive | app.py:108-113 | narrowing a narrowed data frame keeps rows in their original order |
| Aggregates.ArgMax | app.py:128-131 | `idxmax` is the position of the first maximal value: nothing exceeds it, everything before it is smaller |
| Aggregates.Crops | app.py:137 | the `groupby("Crop")` keys: each crop named by some row, once |
| Aggregates.Totals | app.py:137-138 | one total per group key: the crops are distinct and grown, each total is that crop's summed production, and no grown crop is missing |
| Aggregates.InsertDescending | app.py:139 | inserting into a descending list keeps it descending, and adds exactly the new element |
| Aggregates.SortDescending | app.py:139 | `sort_values(ascending=False)` is non-increasing and a permutation of the totals |
| Aggregates.DistinctMultiset | app.py:137-139 | a list is repeat-free iff no element occurs twice in its multiset, so sorting keeps distinct groups distinct |
| Aggregates.TopThree | app.py:136-141 | min(3, groups) distinct grown crops by non-increasing summed production; no unlisted crop sums to more than the third |
| Aggregates.RankedTotals | app.py:136-139 | the sorted totals hold each grown crop exactly once, with its own sum |
| Answer.Select | app.py:98-106 | rainfall selects the rainfall frame and "IMD 2017", crop the crop frame and "Agriculture Ministry 2022", anything else the merged frame and "IMD + Agriculture Ministry" |
| Answer.ApplyFilters | app.py:108-113 | the three narrowings keep the data frame's columns |
| Answer.FilteredRows | app.py:108-113 | the filtered rows are an order-preserving sub-list; a row is kept, as often as it occurs, iff it passes every filter whose key is present and whose column exists; rectangularity is kept |
| Answer.FilteredWellFormed | app.py:108-113 | filtering keeps the data frame rectangular |
| Answer.Render | app.py:116-155 | the answer is an error exactly for a `KeyError`, naming its column; it is `""` exactly for the blank reply; "not available" gives its fixed sentence |
| Answer.AnswerFor | app.py:115-155 | the branch chain after filtering gives "no data" for an empty frame and otherwise the reply `Dispatch` defines |
| Answer.GenerateAnswer | app.py:95-157 | the method returns `Render(Respond(...))`, and the no-data sentence whenever the filtered frame is empty |
| Answer.RespondIsDispatch | app.py:115-155 | on a non-empty filtered frame the answer is the branch chain's reply for that frame and the selected source |
| Answer.EmptyResultFirst | app.py:115-116 | an empty filtered frame gives "No data found for this query (filters: ...)" whatever the action |
| Answer.MaxRainfallReport | app.py:126-129 | the highest-rainfall answer reports state, rainfall and year of the first filtered row of maximal rainfall, with source IMD 2017 |
| Answer.MaxProductionReport | app.py:130-133 | the highest-production answer reports crop, state, production and year of the first filtered row of maximal production |
| Answer.TopCropsReport | app.py:135-143 | the top-crops answer names at most three distinct grown crops by non-increasing total, none left out with a larger total, with the place and source |
| Answer.AverageReport | app.py:118-124 | the average answers carry the sum and the (positive) number of the filtered measures, the place and the source |
| Answer.DispatchKeyError | app.py:126-152 | on a non-empty frame, the branch chain raises `KeyError` iff the branch taken reads a missing column, and names such a column |
| Answer.KeyErrorExactly | app.py:126-152 | a `KeyError` arises iff the frame is non-empty and the branch taken reads a missing column, and it names such a column |
| Answer.BlankExactly | app.py:118-133 | the answer stays `""` iff the frame is non-empty, the action is average or max, and neither the rainfall nor the crop branch applies |
| Answer.NotAvailableExactly | app.py:154-155 | "Answer not available in dataset" iff the frame is non-empty and no average, max, matching top or merged trend branch applies |
| Answer.TrendReport | app.py:145-152 | a merged trend with its columns present reports the crop (or "selected crop") and the state (or "India") |
| Pipeline.GetAnswer | app.py:175-181 | a blank question gets the warning; any other is understood then answered, giving `Render(Ask(...))` |
| Pipeline.TrendNeverAnswered | app.py:145-155 | a trend question is answered "not available" or "no data", never with trend data |
| Pipeline.YearQuestionFindsNothing | app.py:112-116 | a question naming a year, on a data frame whose years are real years, gets the no-data answer |
| Pipeline.AskCaseInsensitive | app.py:179-180 | questions differing only in letter case get the same answer |
| Pipeline.StateQuestionRows | app.py:108-109 | when the `i`-th listed state is the last one the question names, every row behind the answer has that state, up to letter case |
| Pipeline.AverageOfNeitherIsBlank | app.py:118-124 | an average question naming no dataset, on a non-empty merged frame, gets the empty answer |
| Pipeline.MeanIsBlank | app.py:118-124 | the question "mean" on a non-empty merged frame gets the empty answer |

## Left out

- Loading the three CSV files (the third one already merged), column renaming, the conversion of crop years to integers and Streamlit's cache (app.py:1-43): these are I/O. The three data frames are parameters.
- Tables.IsEmpty: tests the rows only. pandas also calls a frame with no columns empty, but a frame read from a CSV file has columns (possibly none of the five modelled), and masking keeps them.
- The page layout, title, sidebar and text input (app.py:160-173): these are UI only.
- NaN: a well-formed data frame has every value of its columns present. pandas skips NaN in `sum`, `mean` and `idxmax`; the model has no missing values to skip.
- Floating point: rainfall and production are integers here. The mean is rendered by rounding the exact quotient half up to two decimals. Python's `round` on binary floats rounds half to even, and ties may differ from the model. `Answer.Render` prints the maximal rainfall and production as integers, while pandas prints floats (`1234.0`).
- The trend chart (`st.line_chart`) and the per-year means behind it (app.py:146-151) are display only. The trend reply records only what the sentence says.
- Aggregates.SortDescending: pandas' `sort_values` does not promise any order among equal totals. The model fixes one (insertion, earlier groups first among ties). The proved properties (non-increasing totals, a permutation, nothing larger left out) hold for every tie order.
- Answer.KeyErrorExactly: when the trend branch misses both measure columns, pandas names both in one `KeyError`. The model names the first missing one.
- Answer.Render: states "not available" in one direction only. No other reply words that sentence either, but the converse is not stated.
- Answer.Render: a year is an integer. Loading turns the crop years into integers (app.py:20), so the highest-production answer only ever sees integers; its cut to the first four characters is modelled on the year's decimal text.
- Answer.FiltersText and Answer.Quoted: `repr` of a string containing quotes or backslashes is not modelled; state and crop names have neither.
- Text handling is ASCII: no Unicode case mapping in `lower`/`title`, and no Unicode classes in `\b`, `\d` or `str.strip`.
- The `"min"` and `"compare"` actions are recognised but answered "not available", exactly as the code does. The model has no separate minimum.
