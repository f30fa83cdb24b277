# BCRA indicator vs USD rate — reconciliation model

`app-3.py` is a Streamlit page that compares one monetary indicator published by
the Banco Central de la República Argentina (BCRA) with the official and the
parallel-market ("blue") US dollar rate. This project models the data path
behind that page:

- **Catalog** (`catalog.dfy`): the indicator catalog is cut down to ids 15 and 1
  and sorted by description. The id of the first entry whose description is the
  one the user chose is then selected.
- **Validation gate** (`pipeline.dfy`): a start date after the end date stops the
  run before any series is requested.
- **Official rate** (`official_rate.dfy`): each day's quotation list is flattened
  into (date, quotation) records, keeping only the numeric quotations. The
  records are then grouped by date, and each group becomes its mean.
- **Blue rate** (`blue_rate.dfy`): `get_usd_blue` keeps the feed entries tagged
  `"Blue"` and the dates inside the closed range. Each kept entry becomes the
  midpoint of its buy and sell prices. Any failure yields "no series".
- **Join** (`series_join.dfy`): the indicator series is inner-joined with the
  averaged official rate on the date. An empty join stops the run with "no data".
- **Error policy** (`pipeline.dfy`): each HTTP request is a `Response`. It is
  either a reply with a status and a decoded body, or `Unreachable` when the
  request raised. A run ends as one `Outcome`:
  - `Joined(table, blue)`: the join succeeded.
  - `InvalidRange`: the start date is after the end date.
  - `UpstreamError(step)`: a required endpoint answered with a status other than 200.
  - `Raised(step)`: an exception escaped the script.
  - `NoData`: the join is empty.

  The run also records the list of requests it issued. The blue-rate source is
  best-effort: whatever it answers, the run issues the same requests, stops or
  goes on in the same way and builds the same table. Only the blue series
  carried in `Joined` differs.

Shared types live in `records.dfy`. `scenarios.dfy` holds a few concrete worked
examples.

Dates are day numbers (`int`); rates are exact `real`s. The imperative loops of
the script are methods: the quotation flattening, the blue-rate rows, and the
run itself. Each method is proved equal to a specification function, and the
script's promises are proved as lemmas about those functions.

### Behaviour of the script worth knowing

- The catalog request (line 30) comes before the date-range check (line 53). A
  reversed range therefore still costs that one request, and nothing else is
  requested.
- An empty catalog reply stops the run in the catalog stage: the frame built at
  line 36 has no `idVariable` column, so line 37 raises `KeyError`. Only a
  non-empty catalog with no allowed entry for the chosen description reaches the
  `IndexError` of line 43.
- An indicator reply with an empty `results` list does not give an empty series.
  The frame has no `fecha` column, so line 69 raises `KeyError`. Likewise, an
  official reply without a single numeric quotation raises at line 95. Both are
  `Raised(step)`.
- The indicator series reaches the join exactly as returned (lines 67-70).
  Duplicate dates in it are neither removed nor averaged, so the table has one
  row per date only if the endpoint sends one observation per date. Each
  indicator observation meets at most one official row, because the official
  series is grouped by date.
- The joined table is in the indicator series' order, as `merge(how="inner")`
  leaves it. It is not re-sorted by date.
- The blue series is computed and reported, but it is never joined into the table.
- `st.stop(message)` is called with an argument it does not take, which raises
  `TypeError`. The effect is the same, since the run stops there: these cases are
  `UpstreamError(step)` / `NoData`.

## Model

| member | source | states |
|---|---|---|
| Catalog.FilterAllowed | app-3.py:37 | keeps exactly the entries whose id is 15 or 1, with their multiplicities, and drops every other entry |
| Catalog.SortByDescription | app-3.py:38 | the result is ordered by description and is a permutation of the input |
| Catalog.SortedAllPairs | app-3.py:38 | in a table sorted by description, any earlier entry's description is ≤ any later one's |
| Catalog.SelectId | app-3.py:43 | None iff no row has the chosen description; otherwise the id of the first row that has it |
| Catalog.ChooseVariableSpec | app-3.py:36-43 | an id is selected iff some catalog entry with id 15 or 1 has the chosen description; the selected id is 15 or 1, and the catalog holds an entry with that id and description |
| OfficialRate.FlattenQuotes | app-3.py:86-92 | the nested loop builds exactly the flattened record list: every numeric quotation of every day, with its day's date, in input order |
| OfficialRate.NumericOfMembers | app-3.py:90-92 | a record comes from one day iff it has that day's date and its value is a numeric quotation of that day |
| OfficialRate.FlattenMembers | app-3.py:88-92 | a record is flattened iff some day with that date lists that value as a numeric quotation; non-numeric quotations never appear |
| OfficialRate.FlattenAppend | app-3.py:87-92 | flattening distributes over concatenation: the records of earlier days come first |
| OfficialRate.GroupKeys | app-3.py:96 | the group keys are strictly ascending and are exactly the dates that occur in the records |
| OfficialRate.GroupMean | app-3.py:94-96 | one observation per distinct date, dates strictly ascending, the same date set as the records, each value the mean of that date's quotations |
| OfficialRate.MeanBetween | app-3.py:96 | a date's mean lies within any bounds that all of that date's quotations respect |
| OfficialRate.GroupMeanWithinQuotes | app-3.py:86-96 | each averaged official rate lies between the lowest and the highest numeric quotation published for its date, and both are quotations of a day with that date |
| BlueRate.BlueOnly | app-3.py:113 | keeps exactly the entries whose source is "Blue", and never lengthens the list |
| BlueRate.Midpoint | app-3.py:122 | the blue value is equally far from the buy and the sell price and lies between them |
| BlueRate.BlueSeries | app-3.py:101-128 | no series iff the request failed (raised or status ≠ 200) or no entry is tagged "Blue" |
| BlueRate.MidpointRows | app-3.py:117-122 | the row loop yields exactly the midpoints of the entries dated within [start, end], in order |
| BlueRate.GetUsdBlue | app-3.py:101-128 | the method returns exactly the blue series defined by BlueSeries |
| BlueRate.InRangeMidpointsMembers | app-3.py:117-122 | a row is produced iff it is the midpoint of an entry dated within [start, end], both ends included |
| BlueRate.BlueSeriesMembers | app-3.py:113-124 | a returned series holds exactly the midpoints of the "Blue" entries dated within [start, end] |
| BlueRate.BlueValueBetweenPrices | app-3.py:122 | every blue value lies between the buy and sell prices of a "Blue" entry of the same date |
| SeriesJoin.MatchesOf | app-3.py:141 | the rows one indicator observation contributes are exactly its pairings with official observations of the same date; none when the date is absent |
| SeriesJoin.InnerJoin | app-3.py:141 | a row is in the join iff its (date, indicator value) is in the indicator series and its (date, official value) is in the official series |
| SeriesJoin.JoinDates | app-3.py:141 | the join's dates are exactly the dates the two series share |
| SeriesJoin.JoinEmptyIffDisjoint | app-3.py:141-143 | the join is empty iff the two series share no date |
| SeriesJoin.AtMostOneMatch | app-3.py:141 | against a series with unique dates, an indicator observation contributes at most one row |
| SeriesJoin.JoinNoLongerThanIndicator | app-3.py:96-141 | joined with the per-date official means, the table is no longer than the indicator series |
| Pipeline.SelectIndicator | app-3.py:29-43 | an indicator is selected iff the catalog reply is 200 and an allow-listed entry has the chosen description, and the id is allow-listed and paired with that description; the run stops with an upstream error iff the catalog status is not 200, raises in the catalog stage iff the request raised or the catalog is empty, and raises in the selection step iff a non-empty catalog has no allow-listed entry with that description |
| Pipeline.Run | app-3.py:29-143 | the run's outcome and request list are those of the pipeline specification; a reversed range issues only the catalog request; a joined table is non-empty and no longer than the indicator series |
| Pipeline.RunSeries | app-3.py:60-143 | the series stage's outcome and request list are those of its specification; a joined table is non-empty and no longer than the indicator series |
| Pipeline.ValidationGate | app-3.py:53-62 | a start date after the end date stops the run after the catalog request alone, and with the range warning whenever an indicator was selected |
| Pipeline.IssuedRequests | app-3.py:53-131 | the requests are the catalog request alone, or (only when an indicator was selected and the range is valid) the catalog, indicator, official and blue requests as a prefix in that order |
| Pipeline.FetchesCarryValidRange | app-3.py:53-81 | an indicator or official request is issued only with a selected id and a valid range, and it carries that range, that id and the limits 3000 and 1000 |
| Pipeline.CatalogFailureStops | app-3.py:30-33 | a catalog status other than 200 ends the run with an upstream error after the catalog request alone |
| Pipeline.IndicatorFailureStops | app-3.py:62-65 | an indicator status other than 200 ends the run before the official rate is requested |
| Pipeline.OfficialFailureStops | app-3.py:81-84 | an official-rate status other than 200 ends the run before the blue rate is requested or anything is joined |
| Pipeline.SeriesUpstreamErrorMeansErrorStatus | app-3.py:62-84 | after the catalog stage, an upstream error names the indicator or official step, whose endpoint answered with a status other than 200 and whose request was the last one issued |
| Pipeline.UpstreamErrorMeansErrorStatus | app-3.py:30-84 | a run ends with an upstream error only when that endpoint answered with a status other than 200, and that endpoint's request was the last one issued |
| Pipeline.BlueNeverAborts | app-3.py:101-141 | whatever the blue-rate endpoint answers, the run issues the same requests, ends the same way and builds the same table; only the carried blue series differs |
| Pipeline.JoinedTableSpec | app-3.py:86-143 | a joined run had three 200 replies and gives a non-empty table over exactly the shared dates; each row pairs an indicator observation with that date's official mean, which lies between the date's lowest and highest quotation |
| Pipeline.EmptyJoinStops | app-3.py:141-143 | once both required series are in, the run stops with "no data" iff the indicator series and the official quotations share no date, and otherwise it is joined |
| Scenarios.OfficialDayAverages | app-3.py:86-96 | quotations 1100.5, a non-number and 1102.0 on one day average to 1101.25 |
| Scenarios.BlueMidpointExample | app-3.py:122 | buy 1195 and sell 1215 give a blue rate of 1205 |
| Scenarios.JoinExample | app-3.py:141 | indicator dates {1, 2, 3} joined with official dates {2, 3, 4} give the rows of dates 2 and 3, in indicator order |

## Left out

- The Streamlit user interface is a parameter of the model: the title, the select box, the date inputs, and the warning, success and error messages (lines 7, 42, 49-51, 54, 107, 127, 135, 137). The chosen description and the two dates are inputs. The notice at lines 133-137 is modelled only by its effect: the run goes on either way.
- HTTP and JSON decoding are not modelled. Each endpoint's reply is a status plus an already decoded body, or `Unreachable` for a request that raised. A 200 reply whose JSON lacks `results`, `detalle`, `source`, `date` or a price field is not modelled.
- The chart (lines 186-248) is not part of this model. Line 212 reads a `usd_blue` column that the joined frame never has.
- Commented-out code (lines 12-23 and the commented chart variants) is not modelled.
- Date parsing and formatting (`pd.to_datetime`, `strftime`) are not modelled: dates are day numbers. The query parameters carry those numbers rather than `YYYY-MM-DD` text.
- Floating-point rounding is not modelled: means and midpoints are exact reals.
- `isinstance(x, (int, float))` also accepts Python booleans. A `Quote` is either numeric or not, so booleans fall on whichever side the decoder puts them.
- Catalog.SortByDescription: pandas' default sort is not stable, so entries with equal descriptions may come out in another order than this stable insertion sort gives. The selected id can then differ between two entries that share a description and both have an allowed id. The contract states only "sorted and a permutation", which holds for either order.
- Descriptions are compared by code point, as Python compares `str`. Locale collation is not modelled.
- The blue series is computed and carried in `Joined`, but, as in the script, it is not joined into the table.
- Concurrency and Streamlit's re-run-on-interaction model are not modelled: each run is one pass from top to bottom.
