# Indicator dashboard core, in Dafny

A model of the computational core of a small React dashboard for Chilean
economic indicators (the dollar, the UF, and others, as published by
mindicador.cl). The model covers four parts of the dashboard:

- **Comparison widget** (`DollarValue`, file `dollar_value.dfy`). This is
  `src/components/DollarValue.jsx`.
  - The pure decisions are functions:
    - `compareValues` (direction, difference, percentage);
    - the weekend and year-range checks;
    - the yearly average;
    - the `codigo` filter over the indicator snapshot;
    - the "pesos" → "CLP" unit label;
    - what each comparison flow does with the awaited response.
  - The component's `useState` fields make up the class `Widget`. Each
    handler is a method with a field-level `modifies` clause, so a handler
    can change only the fields it names. `Mount`, which runs the mount
    effects, may modify the whole widget, and its `ensures` state every
    field.
  - `Consistent()` is the invariant `handleCompare` keeps: no comparison
    running between handlers, never both a result and an error, and a
    result always comes with its reference data.
- **Bar chart** (`DollarBarChart`, file `dollar_bar_chart.dfy`). This is
  `src/components/DollarBarChart.jsx`.
  - Min and max.
  - Average and latest change.
  - The every-third-bar thinning.
  - Normalised bar heights and the y-axis labels.
  - The chart's fetch state, as the class `Chart`.
- **Service transforms** (`Api`, file `api.dfy`). This is
  `src/services/api.js`.
  - The `yyyy-mm-dd` → `dd-mm-yyyy` date reformatting.
  - `slice(0, 30)`, with and without `reverse()`.
  - The `serie[0]` and `data[indicator]` projections.
  - The requests the client issues.
- **Text truncation** (`Helpers`, file `helpers.dfy`). This is
  `src/utils/helpers.js`. The text is a sequence of UTF-16 code units, the
  units `length` and `substring` count.

Supporting modules:

- `Common` (`common.dfy`): `Option`, the `Num` result of a JavaScript
  division, reversal, sums, min/max and means.
- `Strings` (`strings.dfy`): one-character `split`/`join` and ASCII
  `toLowerCase`.
- `Json` (`json.dfy`): JSON values, truthiness and `obj[key]`.

Modelling conventions:

- Numbers are `real`.
- A JavaScript division by zero yields `Infinity` or `NaN`, not an
  exception. The model writes that result as `Num.NonFinite`, so no
  percentage or height needs a precondition against a zero divisor. The
  one exception is the mean (`Mean`, `YearlyMean`): it requires a
  non-empty list, where JavaScript would give `NaN`. Every caller checks
  that first: the chart statistics need at least two points, and the year
  comparison rejects an empty series (`DollarValue.jsx` line 214).
- Network calls are not modelled. Each handler receives the awaited
  response as a parameter of type `FetchOutcome`: the body, a timeout, a
  404, or another failure.
- A comparison handler returns the `Request` it issued. It returns `None`
  when it stopped before fetching.
- The weekday of the chosen date and the current year are parameters.
- Point dates (`fecha`) are integer timestamps.

A JavaScript division by zero is not an error, and the model keeps that behaviour:

- A zero divisor is not an error. The percentage against a historical
  value of 0, the change percentage after a previous value of 0, and the
  bar heights of a flat series are all non-finite (`NonFinite`).
- A flat series (max == min) gives no bar a finite height, because each
  height divides by max − min.

## Model

| member | source | states |
|---|---|---|
| DollarValue.Compare | src/components/DollarValue.jsx:262-279 | The direction is a trichotomy: increased iff current > historical, decreased iff current < historical, unchanged iff they are equal. The difference is non-negative and restores the current value from the historical one. The percentage is the difference as a percentage of the historical value (non-finite when that value is 0). An unchanged result has difference 0 and percentage 0. |
| DollarValue.CompareRestoresCurrent | src/components/DollarValue.jsx:262-279 | historical + signed change == current, and the difference is the absolute difference of the two values. |
| DollarValue.CompareSwapped | src/components/DollarValue.jsx:262-279 | Swapping current and historical flips the direction and keeps the difference. |
| DollarValue.ComparePercentage | src/components/DollarValue.jsx:265-272 | With a non-zero historical value the percentage is finite and percentage × historical == difference × 100. |
| DollarValue.CurrentValor | src/components/DollarValue.jsx:256-260 | The current value exists iff the indicator data is an object whose `valor` is a non-zero number, and then it is that number. |
| DollarValue.CompareValues | src/components/DollarValue.jsx:254-285 | No result (the throw) iff the current value is missing or falsy or the historical value is missing; otherwise the comparison of the two. |
| DollarValue.IsWeekend | src/components/DollarValue.jsx:130 | Weekday 0 or 6 (definition). |
| DollarValue.YearInRange | src/components/DollarValue.jsx:192 | Not below 2000 and not after the current year (definition). |
| DollarValue.YearlyMean | src/components/DollarValue.jsx:224-225 | The sum of the year's values over their count, for a non-empty year (definition; bounds in the two lemmas below). |
| DollarValue.YearlyMeanWithinSeries | src/components/DollarValue.jsx:224-225 | The yearly reference (sum / length of a non-empty series) lies between some value of the year and some other value of the year. |
| DollarValue.YearlyMeanOfFlatYear | src/components/DollarValue.jsx:224-225 | A year at a constant value averages to that value. |
| DollarValue.AvailableIndicators | src/components/DollarValue.jsx:27-29 | A key is offered iff some entry with that key is an object holding `codigo`; no more keys than entries. |
| DollarValue.AvailableIndicatorsInOrder | src/components/DollarValue.jsx:27-29 | The offered keys are a subsequence of the snapshot's keys in document order, which is the order of `Object.keys` when no key is an array index. |
| DollarValue.Keys | src/components/DollarValue.jsx:27 | One key per entry, the i-th being the i-th entry's key: document order, which is `Object.keys` order when no key is an array index. |
| Json.HasKey | src/components/DollarValue.jsx:28 | `'codigo' in allData[key]`: some member has the key (definition; Json.Get is defined exactly when it holds). |
| DollarValue.IsIndicatorEntry | src/components/DollarValue.jsx:28 | An object value holding a `codigo` key (definition). |
| DollarValue.AvailableIndicatorsByLookup | src/components/DollarValue.jsx:27-29 | With distinct keys, a key is offered iff `allData[key]` is defined and is an indicator entry. |
| DollarValue.NormalizeUnit | src/components/DollarValue.jsx:328 | "CLP" when the lower-cased unit is "pesos", the unit otherwise (definition; properties in the lemmas below). |
| DollarValue.NormalizeUnitCases | src/components/DollarValue.jsx:328 | The label is "CLP" iff the unit is "CLP" or any capitalisation of "pesos"; any other unit is shown as is. |
| DollarValue.NormalizeUnitIdempotent | src/components/DollarValue.jsx:328 | Normalising a normalised label changes nothing. |
| DollarValue.NormalizeUnitExamples | src/components/DollarValue.jsx:328 | "Pesos" and "PESOS" become "CLP"; "Dólar" stays. |
| DollarValue.CurrentUnit | src/components/DollarValue.jsx:411-415 | The unit beside the current value agrees with the shared normalisation (an empty unit stays empty). |
| DollarValue.ComparisonUnit | src/components/DollarValue.jsx:319-344 | The unit beside the compared value is "CLP" when the reference has no unit and the normalised unit otherwise. |
| DollarValue.RejectionError | src/components/DollarValue.jsx:167-179 | A timeout, a 404 and any other rejection map to three distinct error tags. |
| DollarValue.DateComparison | src/components/DollarValue.jsx:144-180 | Exactly one of result and error is set. A rejection stores nothing and gives its tag. A missing point or a zero `valor` gives NoData. Otherwise the point is stored and the result is exactly `compareValues` of its `valor`: a result whenever that comparison yields one. When it yields none, the error is MissingCurrentValue for falsy current data and ProcessingFailed otherwise. |
| DollarValue.YearComparison | src/components/DollarValue.jsx:211-251 | The same shape for a year. A rejection gives its tag, and an empty series gives NoData. Otherwise the response is stored and the result is exactly `compareValues` of the year's mean, with the same two errors when there is none. |
| DollarValue.DateComparisonRestoresCurrent | src/components/DollarValue.jsx:147-158 | A successful date comparison had a non-empty series and a current value; the provider's value plus the signed change is the current value; the percentage is finite (the zero `valor` was rejected). |
| DollarValue.YearComparisonRestoresCurrent | src/components/DollarValue.jsx:214-229 | A successful year comparison had a non-empty series; the year's mean plus the signed change is the current value, and the mean lies within the year's values. |
| DollarValue.Widget.constructor | src/components/DollarValue.jsx:8-21 | The initial `useState` values; the state is consistent. |
| DollarValue.Widget.ConsistentShowsResult | src/components/DollarValue.jsx:298-358 | In a consistent state a stored error is what the comparison area shows. A stored result is shown exactly when there is an indicator name: in date mode a non-empty compared indicator, in year mode a non-empty `nombre` or compared indicator. Otherwise the "no valid data" error is shown. |
| DollarValue.Widget.ShownComparison | src/components/DollarValue.jsx:298-358 | The error when there is one; otherwise nothing without reference data or a result; otherwise the "no valid data" error when the compared indicator name is empty, and the result when it is not (definition; ConsistentShowsResult states its cases). |
| DollarValue.Widget.ComparedIndicatorName | src/components/DollarValue.jsx:318-348 | `comparedIndicatorName`: empty iff neither the date mode with reference data and a non-empty compared indicator nor the year mode with reference data and a non-empty `nombre` or compared indicator applies. |
| DollarValue.Widget.ResetComparisonData | src/components/DollarValue.jsx:67-75 | Clears exactly the seven comparison fields (the frame allows no others) and leaves the widget consistent. |
| DollarValue.Widget.HandleDateChange | src/components/DollarValue.jsx:81-87 | Stores the date and clears only the date data, the result and the error; the year fields are untouched. |
| DollarValue.Widget.HandleYearChange | src/components/DollarValue.jsx:89-95 | Stores the year and clears only the year data, the result and the error; the date fields are untouched. |
| DollarValue.Widget.HandleCompareIndicatorChange | src/components/DollarValue.jsx:101-105 | Stores the compared indicator and resets the comparison. |
| DollarValue.Widget.HandleComparisonTypeChange | src/components/DollarValue.jsx:107-110 | Stores the comparison mode and resets the comparison. |
| DollarValue.Widget.FetchIndicators | src/components/DollarValue.jsx:23-34 | On success the offered indicators are the filtered keys of the snapshot; a rejection changes nothing. |
| DollarValue.Widget.FetchIndicatorValue | src/components/DollarValue.jsx:36-48 | Loading ends; the error is set iff the request was rejected; on success the current data is `data[selectedIndicator]`, otherwise it is kept. |
| DollarValue.Widget.SelectedIndicatorEffects | src/components/DollarValue.jsx:54-65 | For a non-empty indicator, its value is fetched and the comparison reset; the compared indicator always follows the selected one. |
| DollarValue.Widget.Mount | src/components/DollarValue.jsx:50-65 | Mounting loads the indicator list and the dollar's value, resets the comparison and leaves the widget consistent. |
| DollarValue.Widget.HandleIndicatorChange | src/components/DollarValue.jsx:97-99 | The same indicator changes nothing. A different non-empty one fetches its value (kept on a rejection) and resets the comparison. A different empty one changes only the selected and compared indicators. The compared indicator follows a new selection, and consistency is kept. |
| DollarValue.Widget.CompareByDate | src/components/DollarValue.jsx:112-181 | An empty date changes nothing. A weekday of 0 or 6 sets the weekend error with `comparing` false and issues no request. Otherwise it requests the reformatted date for the compared indicator and stores the outcome of the date flow. |
| DollarValue.Widget.CompareByYear | src/components/DollarValue.jsx:183-252 | An empty year changes nothing. A year below 2000 or after the current year sets only the range error and issues no request. Otherwise it requests that year and stores the outcome of the year flow. |
| DollarValue.Widget.HandleCompare | src/components/DollarValue.jsx:287-296 | Clears the result and runs the comparison of the current mode. An empty date or year keeps the reference data and the error. A weekend or an out-of-range year sets its error without a request. Otherwise the request is issued and the reference data, result and error are those of the date or year flow. Consistency is kept, and a comparison that issued a request always ends showing a result or an error. |
| DollarBarChart.MaxValue | src/components/DollarBarChart.jsx:69-71 | 0 for no data; otherwise an upper bound of every value that some point attains. |
| DollarBarChart.MinValue | src/components/DollarBarChart.jsx:73-75 | 0 for no data; otherwise a lower bound of every value that some point attains. |
| DollarBarChart.CalculateStats | src/components/DollarBarChart.jsx:78-90 | All zero below two points; otherwise the mean (which lies between min and max), latest == previous + change, and the change as a percentage of the previous value. |
| DollarBarChart.StatsOfFlatSeries | src/components/DollarBarChart.jsx:78-90 | A flat series averages to its value with no change, and has a 0% change when that value is non-zero (a flat series of zeros gives 0/0, which is `NonFinite`). |
| DollarBarChart.KeepsBar | src/components/DollarBarChart.jsx:100 | An index that is a multiple of 3, or the last index (definition; KeptIndices keeps exactly these indices). |
| DollarBarChart.KeptIndices | src/components/DollarBarChart.jsx:100 | Exactly the indices that are a multiple of 3 or the last one, strictly increasing. |
| DollarBarChart.KeptIndicesCount | src/components/DollarBarChart.jsx:100 | The number of kept indices: the multiples of 3 plus the last index when it is not one. |
| DollarBarChart.GetFilteredData | src/components/DollarBarChart.jsx:95-101 | At most 15 points are kept whole; a longer series keeps, in order, the points at the kept indices. |
| DollarBarChart.FilteredDataFromSeries | src/components/DollarBarChart.jsx:95-101 | Every bar drawn is a point of the series. |
| DollarBarChart.KeptIndicesEnds | src/components/DollarBarChart.jsx:100 | The first kept index is 0 and the last is n − 1. |
| DollarBarChart.FilteredDataKeepsEnds | src/components/DollarBarChart.jsx:95-101 | The first and the last point always get a bar. |
| DollarBarChart.FilteredDataCount | src/components/DollarBarChart.jsx:100 | The number of bars of a long series (11 for 30 points). |
| DollarBarChart.NormalizedHeight | src/components/DollarBarChart.jsx:243 | Finite iff min ≠ max; 0 at min and 100 at max. |
| DollarBarChart.HeightBounds | src/components/DollarBarChart.jsx:243 | Between the bounds, heights lie in [0, 100] and grow with the value. |
| DollarBarChart.BarHeights | src/components/DollarBarChart.jsx:242-243 | One height per bar drawn, each `((valor - min) / (max - min)) * 100` of that bar over the whole series' bounds. |
| DollarBarChart.BarHeightsInRange | src/components/DollarBarChart.jsx:242-243 | For a non-flat series every bar is between 0% and 100% and the last bar shows the latest value; for a flat one no height is finite. |
| DollarBarChart.YAxisLabels | src/components/DollarBarChart.jsx:218-219 | Five labels from max down to min in equal steps of (max − min) / 4. |
| DollarBarChart.YAxisLabelsWithinBounds | src/components/DollarBarChart.jsx:218-219 | With min ≤ max the labels never increase and all lie in [min, max]. |
| DollarBarChart.FetchedChartDataChronological | src/components/DollarBarChart.jsx:53-55 | On a newest-first provider series, the reversed last-30 slice the chart holds is oldest first. |
| DollarBarChart.Chart.constructor | src/components/DollarBarChart.jsx:49-62 | No data, loading, no error. |
| DollarBarChart.Chart.FetchChartData | src/components/DollarBarChart.jsx:49-62 | Loading ends; the error is set iff the fetch failed; on success the data is the response reversed, otherwise it is kept. |
| Api.Valores | src/components/DollarBarChart.jsx:70 | The values of the points, in order. |
| Api.FormatProviderDate | src/services/api.js:65 | `split('-').reverse().join('-')` (definition; properties in the lemmas below). |
| Api.HistoricalValueRequest | src/services/api.js:62-66 | The request goes to the given indicator, with the date's dash-separated components reversed. |
| Api.FormatReversesComponents | src/services/api.js:65 | Reformatting reverses the components of the date. |
| Api.FormatTwice | src/services/api.js:65 | Reformatting twice gives back the original string. |
| Api.FormatPreservesShape | src/services/api.js:77 | Reformatting keeps the number of components and the string length. |
| Api.ReversedTotalLength | src/services/api.js:65 | Reversing the components keeps their total length. |
| Api.SplitExample | src/services/api.js:65 | "2024-05-01" splits into "2024", "05", "01". |
| Api.JoinExample | src/services/api.js:65 | "01", "05", "2024" join into "01-05-2024". |
| Api.FormatExample | src/services/api.js:65 | "2024-05-01" becomes "01-05-2024". |
| Api.GetHistoricalIndicatorValue | src/services/api.js:67 | The first point of the series; undefined (None) iff the series is empty. |
| Api.Kept | src/services/api.js:90 | min(30, length). |
| Api.GetDollarLast30Days | src/services/api.js:118-127 | The first min(30, n) points, in provider order. |
| Api.GetIndicatorSeries | src/services/api.js:86-95 | The first min(30, n) points, in reverse order. |
| Api.IndicatorSeriesChronological | src/services/api.js:89-90 | On a newest-first series the result is oldest first, and every dropped point is older than every kept one. |
| Api.GetIndicatorValue | src/services/api.js:42-50 | Defined iff the snapshot has the key, and then (keys being distinct) the value stored under it. |
| Json.Truthy | src/components/DollarValue.jsx:156 | `if (indicatorData)` here and at line 228: null, false, 0 and "" are falsy, everything else truthy (definition; it picks MissingCurrentValue in DateComparison and YearComparison). |
| Json.Get | src/services/api.js:45 | `obj[key]` is defined iff the key is present, and then it is a value paired with the key. |
| Json.GetMember | src/services/api.js:45 | With distinct keys, `obj[key]` is the value paired with that key. |
| Strings.Split | src/services/api.js:65 | At least one part, and no part holds the separator. |
| Strings.JoinSplit | src/services/api.js:65 | Joining a split gives back the string. |
| Strings.Join | src/services/api.js:65 | `join('-')`: the parts with one separator between each two (definition; JoinSplit and SplitJoin make it the inverse of Split, JoinLength gives its length). |
| Strings.SplitJoin | src/services/api.js:65 | Splitting a join of separator-free parts gives back the parts. |
| Strings.SplitWithoutSeparator | src/services/api.js:65 | A string without the separator splits into itself. |
| Strings.SplitAfterPart | src/services/api.js:65 | Splitting `a-b` peels off `a`. |
| Strings.JoinLength | src/services/api.js:77 | A join's length is the parts' length plus one separator between each two. |
| Strings.ToUpper | src/components/DollarValue.jsx:324 | Same length; each character upper-cased. |
| Strings.ToLower | src/components/DollarValue.jsx:328 | Same length; each character lower-cased. |
| Common.Reversed | src/services/api.js:90 | Same length; element i is element n − 1 − i of the input. |
| Common.ReversedTwice | src/services/api.js:65 | Reversing twice is the identity. |
| Common.Percent | src/components/DollarBarChart.jsx:87 | Finite iff the divisor is non-zero, and then percent × whole == part × 100. |
| Common.MaxOf | src/components/DollarBarChart.jsx:70 | An upper bound of the list that belongs to it. |
| Common.MinOf | src/components/DollarBarChart.jsx:74 | A lower bound of the list that belongs to it. |
| Common.Sum | src/components/DollarBarChart.jsx:81 | `reduce((acc, v) => acc + v, 0)` as a left fold from 0 (definition; bounds in SumBounds). |
| Common.Mean | src/components/DollarBarChart.jsx:81-82 | Sum over count of a non-empty list (definition; bounds in the lemmas below). |
| Common.SumBounds | src/components/DollarBarChart.jsx:81 | A sum of n values in [lo, hi] lies in [n·lo, n·hi]. |
| Common.MeanWithin | src/components/DollarBarChart.jsx:81-82 | The mean of values in [lo, hi] lies in [lo, hi]. |
| Common.MeanBounds | src/components/DollarBarChart.jsx:81-82 | The mean lies between the smallest and the largest value. |
| Common.MeanOfConstant | src/components/DollarBarChart.jsx:81-82 | The mean of a constant list is that constant. |
| Helpers.TruncateText | src/utils/helpers.js:21-24 | An empty text, or one no longer than maxLength UTF-16 code units, is returned unchanged. A longer one becomes its first maxLength code units (none for a negative maxLength) followed by "...", three units longer than the kept part. |
| Helpers.KeptLength | src/utils/helpers.js:23 | How many code units `substring(0, maxLength)` keeps: a negative end counts as 0 (definition; used in TruncateText's contract). |
| Helpers.Encode | src/utils/helpers.js:22-23 | The code units JavaScript holds for a string: each character's UTF-16 encoding, in order (definition; EncodeBasicPlane and TruncateSplitsSurrogatePair state its properties). |
| Helpers.EncodeChar | src/utils/helpers.js:22-23 | The code units `length` and `substring` count: one unit inside the Basic Multilingual Plane, equal to the character; a high then a low surrogate outside it. |
| Helpers.EncodeBasicPlane | src/utils/helpers.js:22-23 | For text inside the Basic Multilingual Plane, code units and characters coincide, so the cut falls after maxLength characters. |
| Helpers.TruncateSplitsSurrogatePair | src/utils/helpers.js:22-23 | "😀😀" is four code units, so `truncateText("😀😀", 3)` keeps the first emoji, a lone high surrogate, and "...". |
| Helpers.TruncateIdempotent | src/utils/helpers.js:22-23 | Truncating a truncated text with the same length changes nothing. |
| Helpers.TruncateChangesText | src/utils/helpers.js:22-23 | Truncation changes the text iff it is non-empty, longer than maxLength, and does not already end in "..." right after the kept part. |
| Helpers.TruncateDefault | src/utils/helpers.js:21 | With the default length of 100, texts up to 100 code units are kept and longer ones become 103 code units starting with the first 100. |

## Left out

- Network I/O: the axios calls, their `async`/`await` plumbing and the posts endpoints (`getPosts`, `getPostById`). Responses are parameters instead.
- `getDollarValue`, `getHistoricalDollarValue` and `getDollarSeries` are the indicator functions with the indicator fixed to "dolar". They are covered by `GetIndicatorValue` (whose default is "dolar"), `HistoricalValueRequest` with "dolar", and `GetIndicatorSeries`.
- `getIndicatorByYear` returns the response body unchanged. Its body is the `YearResponse` parameter of the year comparison, and its request is `Request.ByYear`.
- The 60 s / 90 s `Promise.race` timeouts. They are timing; a lost race is the `TimedOut` outcome.
- Overlapping comparisons and "last response wins". Each handler runs atomically, so the intermediate `comparing == true` state is never observable between handlers.
- The unmount cleanup (`cleanupComparisonStates`, which calls `resetComparisonData`) and `delay`. They are lifecycle and timing.
- `alert` and `console.error`. An empty date or year is modelled as "changes nothing".
- The exact Spanish messages. Errors are tags (`CompareError`), and the current-value error is a boolean.
- `toFixed`, `formatDate` and `toLocaleDateString`. They are locale and floating-point string formatting; the model keeps exact reals.
- JSX rendering, except which comparison outcome is shown (`ShownComparison`, including the "no valid data" error for an empty indicator name). The `catch` around the rendering (line 374) is not modelled, because only the number formatting left out below can throw there.
- `new Date(selectedDate).getDay()`. It depends on the time zone, so the weekday is a parameter.
- `new Date().getFullYear()`: the current year is a parameter.
- `parseInt(selectedYear)`. The year input is modelled as already read as an integer (None for the empty input). Non-numeric text, which `parseInt` turns into NaN and the range check lets through, is not modelled.
- DollarValue.CurrentValor: a truthy `valor` that is not a number (which JavaScript would coerce when comparing) is treated as missing.
- DollarValue.Keys: the keys come in document order. `Object.keys` lists array-index keys (such as "2024") first, in ascending numeric order, and that reordering is not modelled, so for a snapshot with such keys the offered indicators can come in a different order. Duplicate keys, which a parsed object never has, are not excluded by the type; AvailableIndicatorsByLookup assumes distinct keys.
- Response shapes the types cannot express: a year body that is null or has no `serie` (DollarValue.jsx:214 gives NoData for it), a date point whose `valor` is missing or not a number (line 147 gives NoData), and the raw `selectedYear` text in the year request (line 209). The model sends the parsed year, so an input such as "2020.5", which passes the range check as 2020 but requests `/2020.5`, is modelled as a request for 2020.
- Strings.ToLower: lower-cases ASCII letters only, not the whole Unicode range `toLowerCase` covers. The "pesos" comparison is exact for ASCII input.
- Strings.ToUpper: upper-cases ASCII letters only, and keeps the length, whereas `toUpperCase` may lengthen a string ("ß" becomes "SS"). Only whether the name is empty decides what is shown, and that is the same either way.
- Helpers.TruncateText: `null`/`undefined` text and a non-integer `maxLength` are not modelled. The text is a sequence of UTF-16 code units, as JavaScript holds it, and the length an integer. A cut can leave a lone surrogate, as in JavaScript; the model does not say how such text is later displayed.
- Floating point: numbers are exact reals. `Infinity`, `-Infinity` and `NaN` are the single value `NonFinite`.
- src/components/CurrencyConverter.jsx, TodoList.jsx, Navbar.jsx, Button.jsx, App.jsx and theme.js are not part of this model. They are UI, or a single rounded multiplication.
