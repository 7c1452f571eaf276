# Trade lifecycle of the Telegram signal bot, in Dafny

This project models the trade lifecycle in `tradingbot.py`:

- **Signal parsing.** A channel message is read as a Long or Short signal with a symbol, an entry price and four take-profit targets.
- **Sizing.** The trade gets a take-profit, a stop-loss and a quantity.
- **Duplicate guard and logging.** The trade is skipped when the CSV ledger already holds a Pending row for it. Otherwise one Pending row is appended.
- **Monitoring.** The price is watched until it crosses the take-profit or the stop-loss. The result, TP or SL, is then written into the ledger.
- **Daily report.** The ledger is summarised once a day: the number of trades, the net profit and the effectiveness (percentage of TP trades).

Modules:

- `Options`: the usual optional value.
- `Text`: Python's substring test `in`, and the comma-joined text of a CSV line.
- `Decimal`: prices and quantities as whole numbers of 10^-8 units.
  - `Show` and `Parse` are how a number is written to a cell and read back.
  - `RoundHalfEven` and `RoundTo` are Python's `round`. `RoundTo(x, k)` is `round(x, places)` with `k` = 10^places.
- `Signal`: `parse_signal`. The pattern match is a parameter `extract` that reports each named group as captured or not. What is verified is what the code does with the captures.
- `Risk`:
  - the take-profit `targets[TARGET_INDEX - 1]`, with Python's indexing rules;
  - the stop-loss, which reflects the take-profit through the entry;
  - `calculate_position_size`.
- `Rows`: the ledger as a sequence of rows of cells, and what each ledger routine does to it.
- `Summary`: the loop of `daily_summary` as a fold over the data rows, and the report built from its counters.
- `Ledger`: class `TradeLog`, whose fields are the file's existence and its rows. Its methods are proved against `Rows` and `Summary`:
  - `is_duplicate`;
  - `log_to_csv`;
  - `update_csv_result`, which updates a row in place;
  - `daily_summary`.
- `Monitor`: the decision rule for one price sample, and `monitor_trade` as a loop over a finite sequence of samples.
- `Executor`: `execute_trade`, in the order the source runs it: take-profit, stop-loss and size first, then the duplicate guard, then the log, then the monitor.

Inputs that come from outside the program are parameters:

- the message text and the pattern engine;
- the settings CAPITAL_USDT, RISK_PER_TRADE and TARGET_INDEX;
- the time stamp of a new row and the "today" of the report;
- the prices the exchange returns, one per poll.

Where Python raises an exception, the model returns an explicit failure value:

- `TakeProfit` returns None for an IndexError.
- `FindPending` returns `Crash` for an IndexError.
- `UpdatedRows` returns None when the update fails.
- `RowTally` returns None for a ValueError.
- `Summarize` returns `Failed` for a StopIteration on an empty file.

Where the code's behaviour may surprise, the model follows the code:

- TARGET_INDEX is never range-checked. An index of 0 or below is Python negative indexing (`Risk.TakeProfitZeroIsLast`). Only an index out of range fails.
- When the stop-loss equals the entry (a take-profit equal to the entry), the size is 0. The trade is still logged and monitored.
- `update_csv_result` matches the symbol and the Pending status, not the type. Closing a Short trade can write into an older Pending Long row for the same symbol (`Rows.UpdateIgnoresSide`). The Short row then stays Pending and blocks every later Short on that symbol (`Executor.OtherSideRowTakesResult`).
- `log_to_csv` writes the header only when the file does not exist. In a file that exists but is empty, the first trade row takes the header's place. `update_csv_result` (`rows[1:]`) and `daily_summary` (`next(f)`) skip it, so that trade is never closed or counted and blocks its symbol and type for good (`Executor.EmptyFileTradeIsHeader`).
- `is_duplicate` tests substrings of the whole line. A Pending `BTCUSDT` row makes a `BTC` signal of the same type a duplicate (`Rows.SubstringDuplicate`).

## Model

| member | source | states |
|---|---|---|
| Text.ContainsCell | tradingbot.py:151-152 | text found in one cell of a row is found in the line `is_duplicate` reads |
| Decimal.NatDigits | tradingbot.py:162-162 | the digits written for a whole number are decimal digits with at least one digit, and read back to the same number |
| Decimal.ParseShow | tradingbot.py:162-162 | a price or quantity written into a ledger cell is read back by `float` as the same value |
| Decimal.RoundHalfEven | tradingbot.py:145-145 | the result is within 1/2 of the argument, and on a tie it is even (Python's rounding) |
| Decimal.RoundHalfEvenUnique | tradingbot.py:145-145 | those two properties determine the rounded value |
| Decimal.RoundTo | tradingbot.py:245-245 | `round(x, places)` is a multiple of 10^-places within half a step of `x`, the even multiple on a tie, and so within 0.5 * 10^-places of `x` |
| Decimal.RoundToUnique | tradingbot.py:245-245 | any multiple of 10^-places within half a step of `x`, even on a tie, is `round(x, places)`: those properties determine it |
| Decimal.ShowAlphabet | tradingbot.py:162-162 | a number written into a cell, in the form `Show` writes, holds only digits, '-' and '.' |
| Signal.StripSlashes | tradingbot.py:137-137 | the symbol has no '/' afterwards, is no longer than before, and is unchanged when it had none |
| Signal.StripSlashesAppend | tradingbot.py:137-137 | removing slashes works piece by piece, so every other character keeps its order |
| Signal.ParseSignal | tradingbot.py:118-140 | a signal is returned iff a direction marker occurs and every group matched with the fifth target "unlimited"; it then carries the marker's side, the symbol without '/', the entry and exactly the four priced targets in order |
| Signal.NoMarkerNoSignal | tradingbot.py:119-121 | without the green Long or red Short marker there is no signal, whatever the pattern captures |
| Signal.BothMarkersMeanLong | tradingbot.py:119-119 | with both markers the signal is Long |
| Signal.MissingFieldNoSignal | tradingbot.py:131-133 | a group that did not match (symbol, entry, a target, a target that is no number, the "unlimited" sentinel) gives no signal, never a partial one |
| Signal.ShortSignalExample | tradingbot.py:118-140 | a Short message with symbol BASE/QUOTE gives Short, BASEQUOTE, the entry and tp1..tp4 |
| Risk.TakeProfit | tradingbot.py:207-207 | `targets[TARGET_INDEX - 1]` exists iff -len < TARGET_INDEX <= len, and is then one of the targets |
| Risk.TakeProfitInRange | tradingbot.py:207-207 | an index from 1 to the number of targets selects that target, counting from 1 |
| Risk.TakeProfitZeroIsLast | tradingbot.py:207-207 | TARGET_INDEX 0 is accepted and selects the last target |
| Risk.StopLoss | tradingbot.py:210-210 | entry - sl == tp - entry for both sides, so the distances agree; a target above the entry puts the stop below it, and the other way round |
| Risk.PositionSize | tradingbot.py:142-145 | 0 when entry == sl; otherwise whole thousandths within 0.0005 of capital * risk / \|entry - sl\| |
| Risk.PositionSizeNonNegative | tradingbot.py:142-145 | capital and risk that are not negative give a quantity that is not negative |
| Risk.Size | tradingbot.py:206-211 | a bracket exists iff the take-profit index is valid; its tp is `targets[TARGET_INDEX - 1]` (the target counted from 1 when the index is in range); its sl is tp reflected through the entry, on the other side of it; its qty is 0 when sl equals the entry, otherwise whole thousandths within 0.0005 of capital * risk / \|entry - sl\| |
| Risk.SizeExample | tradingbot.py:206-211 | entry 100, first target 110, TARGET_INDEX 1, capital 1000, risk 1%: tp 110, sl 90, qty 1 |
| Rows.TradeRow | tradingbot.py:162-162 | the row logged has eight cells; the date, the type, the symbol and "Pending" are in their columns |
| Rows.TradeRowReadsBack | tradingbot.py:162-162 | the Entry, TP, SL and Qty cells of the logged row read back as the entry, tp, sl and qty that were written, in that column order |
| Rows.Appended | tradingbot.py:156-162 | the ledger grows by the new row, preceded by the header only when the file did not exist; earlier rows are kept |
| Rows.PendingRowIsDuplicate | tradingbot.py:147-154 | a Pending row with the symbol and type makes the trade a duplicate |
| Rows.LoggedTradeIsDuplicate | tradingbot.py:147-162 | once a trade is logged, the same symbol and type is a duplicate |
| Rows.SubstringDuplicate | tradingbot.py:152-152 | the duplicate test is on substrings: a BTCUSDT row blocks a BTC signal |
| Rows.LineCell | tradingbot.py:151-152 | text without ',' or newline found in a line lies within one cell of the row |
| Rows.FlaggedCells | tradingbot.py:151-152 | a line passes the test only when some cell holds the symbol, some cell the type and some cell "Pending" |
| Rows.NotFlaggedWithoutSide | tradingbot.py:151-152 | when no cell holds some character of the type, the line does not pass the test |
| Rows.OtherSideNotDuplicate | tradingbot.py:147-154 | a ledger whose only trade is a Pending BTCUSDT Long does not block a BTCUSDT Short |
| Rows.NoPendingCountZero | tradingbot.py:147-154 | a ledger with no row Pending for a symbol and type counts zero such rows |
| Rows.GuardKeepsPendingUnique | tradingbot.py:212-215 | appending only after the guard leaves exactly one Pending row for the symbol and type |
| Rows.FindPending | tradingbot.py:172-175 | the scan returns the first row with the symbol and Pending, reports no match, or reports a row too short to index, with every row before it inspected and not matching |
| Rows.FindPendingSkip | tradingbot.py:172-175 | rows that neither match nor raise do not change how the scan ends |
| Rows.UpdateTouchesFirstPendingOnly | tradingbot.py:168-178 | the update keeps the row count, and changes at most the first matching data row, and only its Result cell |
| Rows.UpdateWithoutMatchKeepsRows | tradingbot.py:172-178 | with no Pending row for the symbol, the ledger is written back unchanged |
| Rows.UpdateIgnoresSide | tradingbot.py:173-173 | the match ignores the type: closing a Short trade writes into an older Pending Long row of the symbol |
| Rows.LogKeepsWellFormed | tradingbot.py:156-162 | logging keeps the ledger a header followed by eight-cell trade rows |
| Rows.UpdateKeepsWellFormed | tradingbot.py:168-178 | on such a ledger, writing TP or SL never raises and keeps that shape |
| Summary.MakeSummary | tradingbot.py:244-246 | trades = wins + losses; effectiveness is in [0, 100], 0 with no trades, otherwise within 0.005 of 100 * wins / trades |
| Summary.Effectiveness | tradingbot.py:245-245 | `round(wins / total * 100, 2)` lies in [0, 100] and within 0.005 of the exact share |
| Summary.TallyAppend | tradingbot.py:235-243 | counting a ledger in two parts and adding the counters gives the count of the whole |
| Summary.FailureStays | tradingbot.py:236-236 | a row that raises makes the whole report fail, whatever follows it |
| Summary.TallyOne | tradingbot.py:235-243 | the count over a single row is that row's contribution |
| Summary.PendingRowCountsNothing | tradingbot.py:237-243 | a Pending row adds nothing |
| Summary.OtherDayCountsNothing | tradingbot.py:237-237 | a row whose date does not contain today adds nothing |
| Summary.TallyAppendNeutral | tradingbot.py:235-243 | adding a row that contributes nothing leaves the counters as they were |
| Summary.AppendNeutralRow | tradingbot.py:226-247 | adding such a row leaves the report as it was |
| Summary.LogKeepsSummary | tradingbot.py:226-247 | logging a new trade into an existing, non-empty ledger does not change the day's report |
| Summary.WellFormedTallies | tradingbot.py:235-243 | data rows as the bot writes them never raise |
| Summary.WellFormedReports | tradingbot.py:226-247 | a ledger written by the bot always yields a report |
| Summary.TallySplit | tradingbot.py:235-243 | the count over the rows before, one row, and the rows after is the sum of the three |
| Summary.CloseRow | tradingbot.py:237-240 | a Pending row of today counts nothing; marked TP it counts one win and its gain |
| Summary.LoggedRowCounts | tradingbot.py:236-243 | the row `log_to_csv` writes counts nothing while Pending; marked TP it counts one win of tp - entry (Long) or entry - tp (Short), marked SL one loss of \|entry - sl\| |
| Summary.ClosedCounts | tradingbot.py:236-243 | an eight-cell Pending row of today with readable prices counts nothing, one win of its gain at TP, one loss at SL |
| Summary.TPRowTally | tradingbot.py:237-240 | any eight-cell row of today at TP with readable entry and tp adds one win of tp - entry for Long, entry - tp otherwise |
| Summary.SLRowTally | tradingbot.py:237-243 | any eight-cell row of today at SL with readable entry and sl adds one loss and subtracts \|entry - sl\| |
| Summary.ClosingWithTPCountsOnce | tradingbot.py:238-240 | when the row `closed` is a Pending row of today with its Result set to TP, putting it in place adds exactly one win and that row's gain, and nothing else |
| Summary.HalfEffectiveness | tradingbot.py:245-245 | one win in two trades is 50% |
| Summary.WinRowCounts | tradingbot.py:238-240 | example: a Long BTCUSDT row of today at TP adds one win of tp - entry (the general case is `Summary.TPRowTally`) |
| Summary.LossRowCounts | tradingbot.py:241-243 | example: a Long ETHUSDT row of today at SL adds one loss and subtracts \|entry - sl\| (the general case is `Summary.SLRowTally`) |
| Summary.SummaryExample | tradingbot.py:226-247 | a TP row (100 to 110) and an SL row (100 to 95) of today give 2 trades, 1 win, 1 loss, net 5 and 50% |
| Ledger.CountRows | tradingbot.py:235-243 | the counter loop ends with the fold of the data rows, or fails at the first row that raises |
| Ledger.ScanPending | tradingbot.py:172-175 | the loop over the data rows stops at the first row with the symbol that is Pending, runs to the end without one, or stops where indexing raises, as `FindPending` says |
| Ledger.TradeLog.constructor | tradingbot.py:157-157 | the ledger starts with the given existence and rows |
| Ledger.TradeLog.IsDuplicate | tradingbot.py:147-154 | the scan answers true iff the file exists and some line contains the symbol, the type and "Pending" |
| Ledger.TradeLog.LogToCsv | tradingbot.py:156-162 | the file exists afterwards and holds the old rows, the header if it was new, and the Pending row; the shape is kept |
| Ledger.TradeLog.UpdateCsvResult | tradingbot.py:168-178 | without a file or when a row raises, nothing is written; otherwise the first matching row gets the result; on a ledger the bot wrote, TP and SL always succeed |
| Ledger.TradeLog.DailyReport | tradingbot.py:226-247 | no report without a file, a failure on an empty file or a bad row, otherwise the report of today's counters |
| Monitor.LongPendingBetween | tradingbot.py:185-193 | a Long trade with its stop below its target stays open iff sl < price < tp; TP iff price >= tp; SL iff price <= sl |
| Monitor.ShortPendingBetween | tradingbot.py:194-202 | a Short trade with its target below its stop stays open iff tp < price < sl; TP iff price <= tp; SL iff price >= sl |
| Monitor.DecideMirror | tradingbot.py:185-202 | the Short rule is the Long rule on negated prices |
| Monitor.TakeProfitTestedFirst | tradingbot.py:186-193 | a sample past both thresholds counts as TP |
| Monitor.FirstCross | tradingbot.py:183-203 | the hit is the first sample that is not Pending, with every earlier sample Pending; with no hit, every sample is Pending |
| Monitor.MonitorTrade | tradingbot.py:180-203 | the loop stops at the first crossing and makes exactly one update with TP or SL; with no crossing nothing is written |
| Monitor.LongTakeProfitExample | tradingbot.py:185-189 | Long, tp 110, sl 90, prices 95, 108, 111: TP at the third poll |
| Monitor.LongStopLossExample | tradingbot.py:190-193 | Long, tp 110, sl 90, prices 95, 89: SL at the second poll |
| Executor.ExecuteTrade | tradingbot.py:205-224 | a bad TARGET_INDEX or a duplicate leaves the ledger untouched; otherwise exactly one Pending row is logged with the sized bracket, and the monitor's first crossing is handed to `update_csv_result`. On a ledger the bot wrote (the header first, then eight-cell rows) that writes TP or SL into the first Pending data row of the symbol, which is the new row when no older one exists (`Executor.ClosesOwnRow`). On an empty existing file or a ledger with a short row, nothing may be written (`Executor.EmptyFileTradeIsHeader`) |
| Executor.ClosesOwnRow | tradingbot.py:215-224 | on a ledger the bot wrote (no file, or the header first, then eight-cell rows) with no older Pending row for the symbol, the monitor's result lands in the row just logged |
| Executor.EmptyFileTradeIsHeader | tradingbot.py:156-178 | when the file exists but is empty, no header is written, so the trade row is the first line. `update_csv_result` skips it and writes nothing, the trade stays a duplicate for its symbol and type, and the day's report counts no trades |
| Executor.OtherSideRowTakesResult | tradingbot.py:168-178 | with a Pending BTCUSDT Long in the ledger (its date holding no 'h', as every time stamp), a BTCUSDT Short is let through, its crossing closes the Long row, and the new Short row stays Pending and blocks the next BTCUSDT Short |
| Executor.OpenTradeBlocksRepeat | tradingbot.py:212-216 | while a trade is open, the same signal again is a duplicate and is skipped |

## Left out

- Environment loading and validation, and the global settings (tradingbot.py:17-96). The settings are a `Config` parameter.
- Telegram: the client, bot notifications, `requests.post`, the startup message and the message handlers (tradingbot.py:38-47, 98-115, 253-307). These are network I/O. A handler that calls `parse_signal` and then `execute_trade` is the composition of `Signal.ParseSignal` and `Executor.ExecuteTrade`.
- The JANHTRADERS and FX handlers only forward or format notification text.
- Binance: the client setup, order placement and the price request (tradingbot.py:69-72, 184, 218-223). These are foreign calls. The prices are an input sequence.
- The Google Sheets append (tradingbot.py:92-96, 164-166). It is a remote library and does not touch the CSV ledger.
- The scheduler, the cron job, `time.sleep`, the time zone and `datetime.now` (tradingbot.py:203, 227-228, 249-251). The time stamp of a new row and the "today" of the report are parameters.
- The regular-expression engine (tradingbot.py:122-131). It is the parameter `extract` of `Signal.ParseSignal`. Converting the captured numbers is part of it.
- Binary floating point. Prices and quantities are exact multiples of 10^-8. `round` is exact round-half-even on real numbers.
- CSV quoting, and the text Python's `str` gives a float. Cells are written in the form `Show` produces.
- Decimal.Parse: accepts only the form `Show` writes (an optional '-', digits, '.', exactly eight digits). Python's `float` accepts more spellings, so a ledger edited by hand with other spellings reads as a failure here.
- Monitor.MonitorTrade: at each crossing `notify_telegram` (a `requests.post`) runs before `update_csv_result` (tradingbot.py:187, 191, 196, 200), and the price request at tradingbot.py:184 runs on every poll. If either raises, the loop ends with no result written and the row stays Pending. The model always writes the result at the first crossing; a sample sequence that ends before the crossing gives the same ledger.
- Executor.ExecuteTrade: the Sheets append, the notification and the three orders (tradingbot.py:216-223) run between the log and the monitor. If one raises, the monitor never starts and the row stays Pending. The model always goes on to the monitor.
- Monitor.MonitorTrade: `while True` is modelled over a finite sequence of samples. Running out of samples means the trade is still open, not that the loop ended.
- Ledger.TradeLog.DailyReport: the report message text is not modelled. That includes `round(profit, 4)` for display and the integer `0` shown for an effectiveness with no trades. The report holds the exact net profit.
- Summary: a blank line in the file is a row without eight cells and fails the report, as unpacking does in Python. Nothing else about line endings is modelled.
- Concurrency is not modelled. The scheduler thread may run `daily_summary` while a monitor loop writes the file.
