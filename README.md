# Excel Regression Analyzer: the analysis pipeline in Dafny

The analyzer is a single-screen React component (`App` in `app.py`, written in
TypeScript). It loads a sheet, offers the numeric columns for the X and Y
axes, and shows a scatter plot with the least-squares line and its
statistics. This project models what that component computes, and how its
state changes:

- **NumberParsing**: JavaScript's `parseFloat` (section 19.2.4 of ECMA-262).
  It is an explicit decimal-prefix reader over exact reals: leading white
  space, a sign, digits, a fraction and an exponent, with any trailing text
  ignored.
- **Columns**: the two numeric-column tests. The loader (app.py:96) applies
  `parseFloat(String(v))` to every cell. The `numericHeaders` memo
  (app.py:135-138) accepts any number-typed cell outright. The module also
  has the column filter and the automatic choice of axes on load.
- **Extraction**: the rows mapped to candidate points, then filtered to the
  points whose two coordinates are numbers (app.py:142-147, 199-205).
- **Statistics, Regression, Correlation**: the one-pass sums, the slope,
  the intercept, r squared and the two end points of the drawn line
  (app.py:149-193). The properties proved about them:
  - no line exists when all x are equal;
  - the residuals satisfy the normal equations;
  - the line passes through the mean point;
  - no other line has a smaller squared error;
  - r squared lies in [0, 1] (Cauchy-Schwarz);
  - the segment spans the observed x range.
- **Symmetry**: what changes when X and Y are exchanged.
- **WorkedCases**: the regression on small concrete lists.
- **AppState**: the component's state as a class `App`. It has one method
  per event handler (upload, load completion, reset, the two selectors)
  and one method for the effect that recomputes the regression. Its
  invariant ties the stored regression to the current data and selection.

The loader's test (app.py:96) and the memo's test (app.py:137) both accept
a text cell when `parseFloat` reads a number from its start, so `"12abc"`
passes both. They differ on exactly one kind of cell: a number-typed NaN,
which the memo's `typeof` test lets through and the loader's
`parseFloat(String(v))` rejects (`Columns.EligibilityTestsDiffer`).

Numbers are exact reals, not IEEE doubles. `Math.sqrt` is not modelled:
r squared is kept squared, as num² / (Dx·Dy), and is 0 when Dx·Dy is 0, as
the source's zero guard gives.

## Model

| member | source | states |
|---|---|---|
| Types.Lookup | types.ts:2 | `row[h]` is present exactly when `h` is one of the row's keys |
| NumberParsing.ParseFloat | app.py:96 | `parseFloat` gives a number exactly when, after white space and a sign, the text starts with a digit or a point and a digit |
| NumberParsing.TrimStart | app.py:144-145 | leading white space removed: what is dropped is all white space, and what remains does not start with it |
| NumberParsing.ParseFloatIgnoresLeadingWhiteSpace | app.py:144-145 | leading white space never changes what `parseFloat` reads |
| NumberParsing.ParseFloatReadsNumeralPrefix | app.py:137 | a decimal numeral, with or without a minus sign, followed by text that cannot continue it, reads back as its value (so `"12abc"` is numeric) |
| NumberParsing.ExponentOfDigits | app.py:144-145 | an exponent is `e` or `E`, an optional sign and the digits up to the first non-digit; a marker with no digits after it adds nothing |
| NumberParsing.ParseFloatReadsPointed | app.py:144-145 | digits, a point and digits (either run may be empty, not both), then text that is not a digit: the whole part plus the fraction, scaled by the exponent the rest starts with |
| NumberParsing.ParseFloatReadsWhole | app.py:144-145 | digits without a point (leading zeros included), then text that is neither a digit nor a point: their value scaled by the exponent the rest starts with |
| NumberParsing.ParseFloatNegates | app.py:144-145 | a minus sign before a numeral negates the value read, and a plus sign keeps it |
| NumberParsing.ParseFloatReadsFraction | app.py:144-145 | a whole number w, a point and fraction digits f, then text that starts no exponent: w + f/10^len(f) |
| NumberParsing.ParseFloatReadsExponent | app.py:144-145 | a whole number w and an exponent k with its sign: w · 10^±k, whatever non-digit text follows |
| NumberParsing.ParseFloatOfWord | app.py:96 | text starting with a letter (`"undefined"`, `"NaN"`) has no numeric prefix |
| NumberParsing.DigitsValueOfDecimal | app.py:96 | the decimal numeral of n denotes n, so a whole number below 10^21, whose `String` is that plain numeral, reads back as itself |
| Columns.CellNumber | app.py:96 | `parseFloat(String(v))` of a cell: a missing cell (`"undefined"`) and NaN (`"NaN"`) read as no number, a number reads as itself, a text reads a value exactly when it starts with a numeral |
| Columns.ParsesAsNumber | app.py:96 | a cell that passes the loader's test is present and is not NaN; every number-typed cell passes |
| Columns.NumberOrNumericText | app.py:137 | a cell that passes the memo's test is present; a text cell passes exactly when, after white space and a sign, it starts with a numeral |
| Columns.LoadNumericHeaders | app.py:96 | the loader's list is an ordered sub-list of the headers, holding exactly the columns whose cells all pass its test, with distinct headers kept distinct |
| Columns.EligibilityTestsDiffer | app.py:96 | every cell that passes the loader's test passes the memo's test; the two differ exactly on a number-typed NaN |
| Columns.FilterColumns | app.py:137 | the filter keeps the headers, in order, whose cell passes in every row, and only those; it keeps distinct headers distinct |
| Columns.NumericHeaders | app.py:135-138 | the memo's list is an ordered sub-list of the headers, holding exactly the columns numeric in every row, and is empty without data |
| Columns.LoadAndMemoAgree | app.py:96 | when no cell is a number-typed NaN, the loader's list and the memo's list are equal |
| Columns.LoadHeadersAreNumeric | app.py:96-99 | a column the loader picks is also offered by the memo |
| Columns.BadRowDropsColumn | app.py:137 | one more row whose cell is not numeric removes the column from both lists |
| Columns.AutoSelection | app.py:97-106 | two or more numeric columns: X and Y are the first two, and they differ; one: X is it and Y is unset; none: both unset; a chosen axis is always a numeric column |
| Extraction.PointOf | app.py:143-147 | a row gives a point exactly when both of its cells parse |
| Extraction.Present | app.py:147 | the filter keeps at most as many points as there are candidates, and all of them when every candidate is a point |
| Extraction.Points | app.py:142-147 | there are at most as many points as rows, and one per row when every row has two numeric cells |
| Extraction.Kept | app.py:147 | the positions the filter keeps are increasing and are exactly the rows with a point |
| Extraction.PresentAreKept | app.py:147 | the filter's k-th point is the candidate at the k-th kept position |
| Extraction.PointsAreKeptRows | app.py:142-147 | the points are the kept rows' points in row order: nothing is invented and nothing numeric is dropped |
| Extraction.PointCount | app.py:142-147 | the number of points is the number of rows whose two cells both parse |
| Statistics.SpreadZeroIffAllSame | app.py:166-168 | n·Σf² − (Σf)² is never negative, and is zero exactly when every value is the same |
| Statistics.SpreadNonnegative | app.py:166 | n·Σf² − (Σf)² is never negative |
| Regression.MinX | app.py:181-182 | `Math.min` of the x values is one of them and is at most every one |
| Regression.MaxX | app.py:181-183 | `Math.max` of the x values is one of them and is at least every one |
| Regression.Regress | app.py:149-193 | the loop's five running sums are the totals over the points seen so far, so the result is the closed-form fit |
| Regression.RSquared | app.py:176-179 | r squared is 0 when the spread product is 0; otherwise r squared times the product is num², and it is never negative when the product is positive |
| Regression.FromSums | app.py:165-192 | a result exists exactly when the x spread is nonzero; its slope times the spread is the numerator, n times its intercept is Σy − slope·Σx, and its r squared is `RSquared` of the sums |
| Regression.Fit | app.py:149-193 | a fit exists exactly when there are two or more points and the x spread is nonzero |
| Regression.FitDefinedIff | app.py:149-171 | a fit exists exactly when there are two or more points whose x values are not all the same |
| Regression.FitEquations | app.py:165-174 | the slope times the x spread is the slope's numerator; n times the intercept is Σy − slope·Σx |
| Regression.FitThroughMeans | app.py:173-174 | the fitted line passes through the mean point: slope·(Σx/n) + intercept = Σy/n |
| Regression.NormalEquations | app.py:165-174 | the fitted line's residuals sum to zero, and so do the residuals weighted by x |
| Regression.LeastSquares | app.py:165-174 | no line has a smaller sum of squared residuals than the fitted one |
| Regression.MinMaxOrder | app.py:181-183 | the smallest x is at most the largest, and equal to it only when all x are the same |
| Regression.LineSpansPoints | app.py:181-192 | `lineData` has two points: both on the fitted line, left end strictly before right end, both ends observed x values, and every point's x between them |
| Correlation.DetrendedSpread | app.py:176-177 | the spread of y − a·x is the y spread − 2a·covariation + a²·x spread |
| Correlation.CauchySchwarz | app.py:176-177 | the square of the r numerator is at most the product of the two spreads |
| Correlation.RSquaredBounds | app.py:176-179 | a fit's r squared lies between 0 and 1 |
| Symmetry.PointsSwapped | app.py:142-147 | choosing the columns the other way round gives the same points with x and y exchanged |
| Symmetry.SumsSwapped | app.py:157-163 | the swapped points' sums are the original sums with x and y exchanged |
| Symmetry.SpreadsSwapped | app.py:165-166 | after the swap, the x spread and the y spread trade places and the covariation is the same |
| Symmetry.RSquaredSymmetric | app.py:176-179 | when both fits exist, r squared is the same whichever column is X |
| Symmetry.SwappedFitDefinedIff | app.py:166-171 | the swapped fit exists exactly when there are two or more points and the y values are not all the same |
| WorkedCases.PerfectLine | app.py:149-193 | (1,2), (2,4), (3,6) give slope 2, intercept 0, r squared 1 and the line from (1,2) to (3,6) |
| WorkedCases.UndefinedFits | app.py:149-171 | (5,1), (5,2), (5,3) give no fit, and neither does one point or no point |
| AppState.AcceptedIff | app.py:20 | a file passes exactly when it has the Excel MIME type or its name is some text followed by `.csv` (the drop handler, app.py:38, tests the same) |
| AppState.AcceptanceCases | app.py:20 | the file test looks at the MIME type and the name's ending, letter case included: `.csv` and the Excel type pass; `.CSV`, `.xlsx` by name alone, and a bare `csv` fail |
| AppState.RegressionOf | app.py:140-197 | no regression unless there is data and X and Y are chosen and differ; a regression needs two or more points |
| AppState.ChartData | app.py:199-205 | the scatter plot shows at most one point per row, and nothing while an axis is unset |
| AppState.RegressionDefinedIff | app.py:141-171 | a regression is stored exactly when there is data, X and Y are chosen and differ, and their points are two or more with x values not all equal |
| AppState.ChartMatchesRegression | app.py:199-205 | the scatter plot shows the points the regression is fitted to; with one column on both axes it shows points and no line; with an axis unset it shows nothing |
| AppState.App.constructor | app.py:73-80 | the initial state: no data, headers, file name, selection, regression, loading or error |
| AppState.App.RunRegressionEffect | app.py:140-197 | the stored regression becomes the fit of the current data and selection; nothing else changes |
| AppState.App.FileSelected | app.py:17-28 | offered only on the upload screen: an accepted file clears the error, starts loading and becomes the pending file; a rejected one only sets the invalid-file message; no file changes nothing |
| AppState.App.FileLoaded | app.py:82-119 | for the pending (accepted) file: rows replace the data and headers, its name becomes the file name, X and Y are re-chosen automatically whatever they were, and the error is cleared; no rows only sets the empty-file message; a parse failure sets its message and clears data and headers; loading ends in every case |
| AppState.App.Reset | app.py:124-133 | offered only in the data view (app.py:219-227): every field returns to its initial value |
| AppState.App.ErrorViewHasNoControl | app.py:207-216 | once an error is set nothing is being read and neither the upload control nor the data view is on screen, so no handler can run again |
| AppState.App.SelectX | app.py:237-241 | X becomes the chosen column and the regression is recomputed for it |
| AppState.App.SelectY | app.py:244-248 | Y becomes the chosen column, which the Y selector never lets equal X, and the regression is recomputed |

All of the `App` methods keep the invariant `App.Valid`. Under it:
- the stored regression is `RegressionOf` the current data and selection;
- each selected axis is "" or a column the memo offers;
- the headers are the first row's keys;
- a file is being read only while no data is loaded and no error is shown, and it is then the accepted pending file.

## Left out

- Reading the file: `FileReader`, `XLSX.read` and `sheet_to_json` (app.py:83-90, 121) are asynchronous I/O and a foreign library. Their result is a parameter of `App.FileLoaded`: the rows, or a failure.
- Rendering: JSX, `StatCard`, the upload markup, drag-and-drop plumbing and the chart (app.py:8-14, 30-32, 48-69, 207-318). The model keeps from it only which controls are on screen, as preconditions of the handlers that those controls call.
- `toFixed` formatting of the statistics (app.py:255-262).
- IEEE-754 doubles: rounding, overflow to Infinity, NaN propagation and `Math.sqrt`. The arithmetic is exact over reals, and r squared is kept squared.
- Infinite numbers: a number-typed cell is finite or NaN. `parseFloat("Infinity")` is a number in JavaScript, but the model's parser reads no value from it.
- `String` of a number: the model has no `String`, and takes a number-typed cell's own value as its `parseFloat(String(v))`. The round trip is proved for the plain numeral `Decimal(n)` of a whole number (`NumberParsing.DigitsValueOfDecimal`, `ParseFloatReadsNumeralPrefix`), which is what `String` gives for whole numbers below 10^21; from 10^21 on `String` switches to exponent form (`"1e+21"`), which is not modelled.
- `Math.min`/`Math.max` over a spread (`...xValues`): the engine's limit on the number of arguments is not modelled.
- How `Object.keys` orders a row's keys. It lists integer-like keys (`"2019"`, `"2020"`) first, in ascending numeric order, and then the other keys in the order the sheet reader created them (section 10.1.11.1 of ECMA-262, OrdinaryOwnPropertyKeys). So a header row `Sales,2020,2019` gives `["2019", "2020", "Sales"]`, and the automatic choice then takes X = "2019" and Y = "2020". The model takes the resulting `keys` sequence of a row as given, in any order, and does not compute it from the sheet's column order.
- The render between a handler and the effect. React first commits the handler's state change and renders once, and only then runs the effect (app.py:140-197) that stores the new regression. For that one frame the old regression is shown with the new data or axes. The model runs the effect at the end of each handler, so `App.Valid` holds after every handler and that intermediate state does not appear.
- `console.error` in the failure path (app.py:113).
- streamlit_app.py: an HTTP server on a thread, and an iframe embed. It is I/O and threading only.
- The slope and intercept are not proved to change under the axis swap. That holds for some inputs and not for others, so only the invariance of r squared and the conditions for the swapped fit are stated.
