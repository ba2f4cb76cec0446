# Investmate portfolio engine in Dafny

This project models the business logic of Investmate, a desktop stock-portfolio
tracker, and proves properties of it. The logic lives inside three window
classes.

- **The portfolio window** (`main.py`, class `invest_mate`). It validates the
  "Add Investment" form and stores each holding as a row of cells: Symbol,
  Purchase Price, Fees, Units, Date Purchased, Category. It groups the rows by
  symbol. An update pass sums each symbol's lots against its current price,
  accumulates the portfolio totals, converts each position's value into the
  selected currency, and adds up the daily change. The window also loads a
  portfolio from a table, counts the units of a clicked symbol, and builds the
  portfolio-value chart by summing per-holding price series day by day.
- **The stock screen** (`stock_screen.py`). It picks the analyst consensus from
  five recommendation counts. It also computes the day's change of the
  selected stock, colours figures by sign, and formats metrics with an "N/A"
  rule.
- **The search screen** (`search_screen.py`). It computes each index's
  first-to-last change and sparkline colour. It also reduces a search reply to
  a list of symbols and keeps the search box's autocomplete list.

Module layout:

| file | module | what it holds |
|---|---|---|
| `common.dfy` | `Common` | `Option`, the sign→colour rule shared by the three screens |
| `text.dfy` | `Text` | `float()`, `int()`, `isalnum()` and `strip()` on plain ASCII decimal text |
| `dates.dfy` | `Dates` | the three date formats tried in order, calendar validity, instants, `timedelta.seconds` |
| `quotes.dfy` | `Quotes` | the last daily bar and the day's move |
| `currency.dfy` | `Currency` | the conversion mode (identity, at rate, stale) and the rate refresh |
| `holdings.dfy` | `Holdings` | form validation, the stored row, grouping by symbol, units of a clicked symbol |
| `aggregation.dfy` | `Aggregation` | lot formulas, per-symbol sums, the pass over symbols as a fold, daily change |
| `chart.dfy` | `Chart` | timeframe window, chartable holdings, requests, the outer-join merge |
| `main_window.dfy` | `MainWindow` | the window's state and the class `InvestMate`, whose methods perform each operation step by step |
| `stock_screen.dfy` | `StockScreen` | consensus selection, class `BarChartWidget`, daily change, `check_value` |
| `search_screen.dfy` | `SearchScreen` | change and sparkline colour, symbol projection, class `SearchBox` |

Money and units are `real`. Time is an `int` count of microseconds on the
proleptic Gregorian time line, the resolution of Python's `datetime`. The
external feeds are function-valued parameters. They are the symbol search, the
last daily bar of a symbol, the FX rate of a currency, the price history, and
the lenient fallback date parser. The current instant is an input to every
operation, and one instant serves a whole operation.

Behaviours of the code worth knowing:

- The update pass never resets `total_portfolio_change` or
  `total_profit_loss_percent`. The change is recomputed from the running
  totals after each symbol that reaches them. So it ends equal to the overall
  percentage, not to the last symbol's own figure, and it keeps its old value
  when no symbol reaches the totals. The overall percentage is left unchanged
  when its denominator is 0; it is not set to 0.
- Once the cached rate is stale, `convert_currency` fetches a new rate and
  then returns nothing. The fetch writes `currency_rate_last_updated`, but the
  staleness test reads `last_updated_currency_date`, which is set only when
  the window opens. So a stale cache stays stale (`StaleAfterRefresh`). Every
  position then counts in the totals but gets no display row, because
  formatting the missing value raises inside the per-symbol `try`. The
  staleness test uses `.seconds`, which drops whole days
  (`ModeRecursDaily`).

## Model

| member | source | states |
|---|---|---|
| `Common.DetermineColor` | main.py:262-271 | green exactly when the value is positive, red exactly when negative, grey exactly when zero (the same rule as stock_screen.py:192-201 and search_screen.py:90-99) |
| `Currency.Mode` | main.py:100-110 | USD converts as the identity whatever the cache holds; any other currency is stale exactly when the `.seconds` elapsed since `last_updated_currency_date` exceed 600, and otherwise uses the cached rate |
| `Currency.Apply` | main.py:103-110 | the conversion returns the amount itself for USD, amount × rate while fresh, and nothing exactly when stale |
| `Currency.UsdIsIdentity` | main.py:103-104 | converting to USD returns the amount unchanged for every amount, negative and zero included |
| `Currency.Refreshed` | main.py:87-98 | a fetched rate replaces the cached rate and stamps the fetch time; a failed fetch changes nothing |
| `Currency.RefreshedIdempotent` | main.py:87-98 | refreshing twice with the same reply at the same instant is the same as refreshing once |
| `Currency.StaleAfterRefresh` | main.py:75 | a stale cache stays stale after any refresh, because a refresh never writes the field the staleness test reads (main.py:96 writes a different one) |
| `Currency.ModeRecursDaily` | main.py:107 | since `.seconds` ignores whole days, the conversion mode at `now` recurs at the same time on every later day |
| `Dates.TimedeltaSeconds` | main.py:107 | `.seconds` of an elapsed time lies in [0, 86400) |
| `Dates.SecondsIgnoreWholeDays` | main.py:107 | adding whole days to the later instant leaves `.seconds` unchanged |
| `Dates.ParseWith` | main.py:821-831 | a date accepted under one format is a valid calendar date (years 1–9999, a day that exists in its month) |
| `Dates.ParseWithRoundTrip` | main.py:821-831 | every valid date, written with a two-digit day and month and a four-digit year in a format's order and separator, is read back by that format as that date |
| `Dates.ParseDateRoundTrip` | main.py:721-726 | a date so written is read back by the in-order parser, whichever of the three formats wrote it |
| `Dates.FormatsExclusive` | main.py:721-726 | no text is read by two of the three formats, so trying them in order never changes the date obtained |
| `Dates.ParseDateIffSomeFormat` | main.py:821-831 | trying "%d-%m-%Y", "%d/%m/%Y", "%Y-%m-%d" in order yields date d exactly when one of the formats reads the text as d |
| `Text.ParseInt` | main.py:530 | once surrounding white space is dropped, `int()` accepts exactly an optional sign followed by at least one digit |
| `Text.ParseIntRoundTrip` | main.py:530 | `int()` reads the decimal notation of every integer, negative ones included, back as that integer |
| `Text.ParseNumberRoundTrip` | main.py:925-928 | `float()` reads the digits of w, a point and f written with k digits back as w + f/10^k, negated after a minus sign |
| `Text.SurroundingSpaceIgnored` | main.py:718 | a space before and after the text changes neither what `int()` nor what `float()` reads |
| `Text.ParseIntThenNumber` | main.py:530 | every text `int()` accepts is accepted by `float()` with the same value |
| `Text.FractionalUnitsRefusedByInt` | main.py:530 | a units cell "2.5" passes the form's `float()` check yet makes `int()` raise in the clicked-symbol count |
| `Text.StripIdempotent` | main.py:717-719 | stripping white space twice is stripping once |
| `Holdings.FieldErrorsEmptyIff` | main.py:812-840 | the validator collects no error line exactly when every field is non-empty and well formed for its kind |
| `Holdings.FieldErrorsExact` | main.py:812-836 | each failing field contributes exactly its own error line, naming that field and its problem (empty, or not properly formatted) |
| `Holdings.CheckProperlyFormatted` | main.py:808-840 | the loop over the fields returns true exactly when every field passes, and its error list is the one line per failing field in field order |
| `Holdings.NewHolding` | main.py:881-887 | a five-value submission is stored with "General" appended; any other non-empty submission is stored as given |
| `Holdings.FirstOccurrencesSpec` | main.py:867-874 | the group keys are distinct and are exactly the symbols that occur in the holdings |
| `Holdings.GroupOfPresent` | main.py:871-872 | every symbol that occurs has a non-empty group, so its first lot exists |
| `Holdings.GroupedCountsEveryHolding` | main.py:867-874 | grouping loses and duplicates nothing: the group sizes add up to the number of holdings |
| `Holdings.GroupHoldings` | main.py:863-874 | the loop builds keys in first-occurrence order, each mapped to its rows without the symbol cell, in insertion order |
| `Holdings.ClickedUnitsMatchGroup` | main.py:527-530 | the clicked symbol's units are counted over exactly the lots of that symbol's group |
| `Holdings.CountUnits` | main.py:526-530 | the loop sums `int(units)` over the clicked symbol's rows, failing when a row is short or its units are not whole |
| `Aggregation.DisplayName` | main.py:913 | the name is the first hit's description when the search reports hits, the symbol when it reports none, and the search failing raises |
| `Aggregation.CurrentPrice` | main.py:852-861 | the current price is the last close, or 0 when the feed has none |
| `Aggregation.ParseLotsFailureSticks` | main.py:924-928 | once one lot of a symbol cannot be read, the symbol's lots as a whole cannot be |
| `Aggregation.SumOfTotals` | main.py:924-938 | a symbol's units and cost basis are the totals over its lots, with cost basis = price·units − fees per lot |
| `Aggregation.SumOfValue` | main.py:930-938 | a symbol's value is the current price times its total units, and its profit/loss is that value minus its cost basis |
| `Aggregation.TwoLotsOfOneSymbol` | main.py:924-938 | two lots (100, fees 1, 10 units) and (120, no fees, 5 units) at price 150 give cost basis 1599, value 2250, profit/loss 651 |
| `Aggregation.PositionPercentMeaning` | main.py:952 | the position percentage is profit/loss over cost basis times 100, and 0 when the cost basis is 0 |
| `Aggregation.PortfolioPercentMeaning` | main.py:945 | the portfolio percentage is profit/loss over value minus profit/loss times 100, and 0 when that is 0 |
| `Aggregation.TwoSymbolPortfolio` | main.py:960-961 | profits +100 on cost 1000 and −50 on cost 2000 give an overall percentage of 50/3000 × 100 |
| `Aggregation.Category` | main.py:907-908 | a position's category is the first lot's category cell, or "General" when the lot has none |
| `Aggregation.FoldTotals` | main.py:943-944 | the portfolio value and profit/loss are the sums over the symbols that reached the totals, a skipped symbol adding nothing |
| `Aggregation.FoldChange` | main.py:945 | the portfolio change after the pass is the overall percentage of the final totals when some symbol reached them, and the change from before the pass otherwise |
| `Aggregation.FoldRows` | main.py:947-958 | with a fresh rate or USD there is one row per symbol that reached the totals, in order, built from its sums and converted value; with a stale rate there are none |
| `Aggregation.FoldStartChange` | main.py:889-898 | the change carried into the pass survives only when no symbol reaches the totals; nothing else depends on it |
| `Aggregation.TotalCostIdentity` | main.py:960-961 | value minus profit/loss is the total cost basis of the symbols that reached the totals |
| `Aggregation.DailyIsSumOverPositions` | main.py:1020-1028 | when every position has a daily bar, the daily change and percentage are plain sums of each position's move and percentage, added once per position |
| `Aggregation.DailyStopsAtFirstGap` | main.py:1024-1028 | a position without a bar raises: the sums of the positions before it remain and the rest are not added |
| `Quotes.DailyChangePercent` | main.py:1028 | the percentage times the open is the move times 100; it is 0 exactly when the close equals the open |
| `Chart.UnknownTimeframeIsMonth` | main.py:711-713 | a timeframe outside the table charts the last 30 days |
| `Chart.WindowShape` | main.py:701-713 | only "max" is unbounded and starts on 1 January 2000; every other window starts between 7 and 1825 days before now |
| `Chart.PurchaseInstant` | main.py:719-728 | a date read by one of the three formats becomes the midnight of that date; otherwise the fallback parser decides |
| `Chart.TasksExact` | main.py:714-733 | the charted holdings are exactly those with a readable units cell, a readable date not after now, in holding order, each once |
| `Chart.FutureHoldingSkipped` | main.py:729-730 | a holding dated after now is never charted |
| `Chart.CollectTasks` | main.py:714-733 | the loop over the holdings collects exactly the tasks of the chartable holdings, in order |
| `Chart.RequestFor` | main.py:770 | each fetch asks for the holding's symbol from the later of the window start and the purchase date, to one day after now |
| `Chart.Scaled` | main.py:760-761 | a holding's series has the days of its closes, each close times the holding's units |
| `Chart.FetchedNonEmpty` | main.py:772-777 | every series kept is non-empty, and there is at most one per charted holding |
| `Chart.CollectSeries` | main.py:768-779 | the loop keeps exactly the series that arrive and are not empty |
| `Chart.MergeMeaning` | main.py:784-785 | the merged series has a day exactly when some series has it, and its value there is the sum of all series that day, a missing day counting 0 |
| `Chart.ChartSumsSeries` | main.py:692-785 | the chart's value on a day is the sum over the fetched series of their values that day, and it has exactly their days |
| `Chart.NoTaskNoData` | main.py:734-735 | without a chartable holding the chart is empty |
| `MainWindow.UpdateKeepsShape` | main.py:881-887 | an update appends exactly the padded submission when there is one and nothing for an empty one, keeps every other row, and keeps the conversion mode |
| `MainWindow.UpdateTotals` | main.py:889-944 | after an update the value and profit/loss are the sums over the grouped symbols that could be evaluated, and their difference is the total cost basis |
| `MainWindow.UpdatePercent` | main.py:960-961 | the overall percentage is recomputed when the total cost basis is non-zero and keeps its previous value otherwise |
| `MainWindow.UpdateChange` | main.py:945 | the portfolio change after an update is the overall percentage of the final totals once some symbol reached them, and its old value otherwise |
| `MainWindow.UpdateRows` | main.py:947-972 | with a usable rate the display rows are one per evaluated symbol in first-seen order; with a stale rate there are none |
| `MainWindow.UpdateDaily` | main.py:974 | when every position has a bar, the update completes and the daily figures are the sums over the positions |
| `MainWindow.RefreshIdempotent` | main.py:876-975 | refreshing twice at the same instant against the same feeds leaves the same state as refreshing once |
| `MainWindow.InvestMate.ConvertCurrency` | main.py:100-110 | returns what the conversion mode gives, and refreshes the rate exactly when stale |
| `MainWindow.InvestMate.UpdateCurrency` | main.py:87-98 | a fetched rate replaces the cached one and stamps its fetch time; a failed fetch changes nothing |
| `MainWindow.InvestMate.ReadLots` | main.py:916-941 | the loop over a symbol's lots yields the sums over all lots and the first lot's date, or fails when a lot cannot be read |
| `MainWindow.InvestMate.RunPass` | main.py:900-955 | the loop over the grouped symbols leaves the state and rows the pass over the symbols gives |
| `MainWindow.InvestMate.CalculateDailyChange` | main.py:1020-1028 | adds each position's move and percentage to the daily figures, stopping at the first position without a bar |
| `MainWindow.InvestMate.UpdatePortfolio` | main.py:876-975 | the new state is the update of the old state with the submission, and the result says whether the daily change completed |
| `MainWindow.InvestMate.AddInvestment` | main.py:842-848 | the state changes only when every field passes validation, and then it is the update with the submission |
| `MainWindow.InvestMate.LoadPortfolio` | main.py:673-690 | a table missing any of the six required columns is refused and nothing changes; otherwise its rows replace the holdings and the portfolio is refreshed |
| `MainWindow.InvestMate.OnCurrencySelected` | main.py:1235-1241 | switching currency fetches its rate and then refreshes the portfolio |
| `MainWindow.InvestMate.HandleTrendingStockClick` | main.py:522-533 | selects the clicked stock with the sum of `int(units)` over its group; nothing changes when a units cell is not whole |
| `MainWindow.InvestMate.PortfolioGraph` | main.py:692-785 | the chart is empty with no holdings, and otherwise the merge of the fetched series of the chartable holdings |
| `StockScreen.MaxOf` | stock_screen.py:53 | `max` of the counts is one of them and no count exceeds it |
| `StockScreen.ConsensusIndex` | stock_screen.py:53-67 | the consensus is the first label, from Strong Sell to Strong Buy, whose count equals the maximum |
| `StockScreen.TieGoesToBearish` | stock_screen.py:53-64 | on a tie for the maximum the more bearish label wins |
| `StockScreen.StrongBuyIffStrictlyAhead` | stock_screen.py:62-67 | "Strong Buy" is chosen exactly when its count exceeds each of the other four |
| `StockScreen.ConsensusStable` | stock_screen.py:53-67 | one more analyst agreeing with the consensus leaves it unchanged |
| `StockScreen.BarChartWidget.Plot` | stock_screen.py:42-71 | the label and its colour are the chosen entry of the label table and of the bar palette; a failed request leaves both as they were |
| `StockScreen.StockDailyChange` | stock_screen.py:182-190 | the day's change times the open is (close − open) × 100 |
| `StockScreen.ChangeColourFollowsPrice` | stock_screen.py:190-201 | with a positive open the change is green exactly when the close is above the open, red exactly when below, grey when equal |
| `StockScreen.CheckValue` | stock_screen.py:325-331 | "N/A" exactly for a missing value or the empty string; a number is shown rounded to two decimals; any other text raises |
| `StockScreen.CheckValueExactOnCents` | stock_screen.py:331 | a number given in whole cents is shown exactly |
| `SearchScreen.CalculateChange` | search_screen.py:197-205 | 0 for fewer than two closes; otherwise the change times the first close is (last − first) × 100 |
| `SearchScreen.ChangePositiveIffRise` | search_screen.py:205 | with a positive first close the change is positive exactly when the last close is higher, and negative exactly when lower |
| `SearchScreen.SparklineColor` | search_screen.py:29 | the sparkline is green exactly when the last close is above the first, and red otherwise |
| `SearchScreen.SparklineAgreesWithChange` | search_screen.py:29 | with a positive first close the sparkline is green exactly when the change is shown green; a flat series is grey in the table but red in the line |
| `SearchScreen.Emitted` | search_screen.py:53-73 | a 200 reply emits the symbols of its hits in order; any other status, and any error caught, emits the empty list |
| `SearchScreen.MissingSymbolDropsAll` | search_screen.py:66-67 | one hit without a symbol raises, so the whole list is emptied, not just that entry |
| `SearchScreen.SearchBox.HandleStockAutocompleteValues` | search_screen.py:125-137 | text shorter than two characters clears the completer and starts nothing; longer text starts a search for exactly that text |
| `SearchScreen.SearchBox.UpdateAutocomplete` | search_screen.py:140-151 | the last list is always recorded; its symbols are appended at the end of the completer in order and existing rows are kept |
| `SearchScreen.TwoRepliesAccumulate` | search_screen.py:140-151 | two replies in a row leave both lists in the completer, first before second, while only the second is recorded |

## Left out

- Widgets, layouts, styling, fonts, icons, tab switching, scrolling, the clock, matplotlib plotting, the news sections and the trending-stocks filter: these are display only.
- The HTTP calls and the market-data library: they become the function fields of `Market` and the `History` and fallback-parser parameters. Whether a key is missing or a reply is not JSON is folded into a failed reply.
- The thread pool and the search worker thread: the model fetches sequentially. The chart's merged sum does not depend on the order in which series arrive; the model keeps them in holding order.
- Saving to CSV, the CSV reader and `pd.to_datetime`: a loaded table is given as its columns and rows of cells, and the lenient date parser is a parameter. The save/load round trip is not modelled.
- Cells are taken by position in the table's column order, as the source does. The model treats them as text; a table's numbers converting differently from text is not captured.
- Float rounding, `:.2f` and thousands formatting and the currency-symbol lookup: money is `real`, and a displayed value is kept as the converted number.
- `float()` and `int()` accept plain ASCII decimal text only: exponents, `inf`/`nan` and underscores are not modelled, and only ASCII white space is stripped around the number. `strptime` is modelled as a digit-shape matcher plus calendar validity. `isalnum` covers ASCII letters and digits only.
- The update pass reads `datetime.now()` once per conversion; the model uses one instant for the whole pass.
- `Quotes.DailyChangePercent`: a last bar whose open is 0 is not representable (`QuotedBar` requires a non-zero open). The source divides by it and gets an infinity or NaN.
- `Aggregation.CurrentPrice`: for the same reason a last bar with open 0 is not representable, although the source would still take its close as the price (main.py:852-861).
- The daily-change and stock-screen code fetches the day's history several times; the model reads one bar per symbol, as if the feed answered the same each time.
- `SearchScreen.SearchBox.HandleStockAutocompleteValues`: the worker is represented by its query; the signal connection and the delivery of its result are modelled separately by `Deliver`.
- `update_portfolio_display` (labels, asset list and chart refresh after an update) is display only; the chart data it requests is `PortfolioGraph`.
