/**
 * `execute_trade`: size the trade, skip it when an equal trade is still
 * Pending in the ledger, otherwise log it and hand it to the monitor.
 */
module Executor {
  import opened Options
  import opened Decimal
  import opened Signal
  import opened Risk
  import opened Rows
  import opened Ledger
  import opened Monitor
  import opened Summary

  /**
   * BadTargetIndex: `data['targets'][TARGET_INDEX - 1]` raised IndexError.
   * Skipped: `is_duplicate` was true.  Opened: the row was logged and
   * monitored.
   */
  datatype TradeOutcome = BadTargetIndex | Skipped | Opened(bracket: Bracket, hit: Option<Hit>, written: bool)

  /**
   * The ledger after a trade is opened: logged as Pending, then the monitor's
   * result written into the first Pending row of the symbol.
   */
  function AfterOpening(present: bool, rows: seq<Row>, date: string, intent: Intent, b: Bracket,
                        hit: Option<Hit>): seq<Row>
  {
    Closed(true, Appended(present, rows, TradeRow(date, intent, b.qty, b.tp, b.sl)), intent.symbol, hit)
  }

  /**
   * `execute_trade(data)` with `date` for the time stamp and `prices` for the
   * price feed.  The take-profit is read before the duplicate check, so a bad
   * TARGET_INDEX fails even for a duplicate; a skipped or failed trade leaves
   * the ledger as it was.
   */
  method ExecuteTrade(log: TradeLog, cfg: Config, intent: Intent, date: string, prices: seq<Price>)
      returns (outcome: TradeOutcome)
    modifies log
    ensures Size(intent, cfg).None? ==>
      outcome == BadTargetIndex && log.present == old(log.present) && log.rows == old(log.rows)
    ensures Size(intent, cfg).Some? && old(Duplicate(log.present, log.rows, intent.symbol, SideLabel(intent.side))) ==>
      outcome == Skipped && log.present == old(log.present) && log.rows == old(log.rows)
    ensures Size(intent, cfg).Some? && !old(Duplicate(log.present, log.rows, intent.symbol, SideLabel(intent.side))) ==>
      && outcome.Opened?
      && outcome.bracket == Size(intent, cfg).value
      && outcome.hit == FirstCross(intent.side, prices, outcome.bracket.tp, outcome.bracket.sl, 0)
      && log.present
      && log.rows == AfterOpening(old(log.present), old(log.rows), date, intent, outcome.bracket, outcome.hit)
    ensures old(log.Valid()) ==> log.Valid()
  {
    var tp := TakeProfit(intent.targets, cfg.targetIndex);
    if tp.None? {
      return BadTargetIndex;
    }
    var sl := StopLoss(intent.side, intent.entry, tp.value);
    var qty := PositionSize(intent.entry, sl, cfg.capital, cfg.riskPct);
    var dup := log.IsDuplicate(intent.symbol, SideLabel(intent.side));
    if dup {
      return Skipped;
    }
    log.LogToCsv(date, intent, qty, tp.value, sl);
    var hit, written := MonitorTrade(log, intent, tp.value, sl, prices);
    outcome := Opened(Bracket(tp.value, sl, qty), hit, written);
  }

  /**
   * With no older Pending row for the symbol, the monitor's update lands on
   * the row just logged: the ledger ends as the logged one with that row's
   * Result set to TP or SL.
   */
  lemma {:induction false} ClosesOwnRow(present: bool, rows: seq<Row>, date: string, intent: Intent,
                                        b: Bracket, h: Hit)
    requires WellFormed(present, rows)
    requires present ==> NoMatchBetween(rows, intent.symbol, 1, |rows|)
    ensures var logged := Appended(present, rows, TradeRow(date, intent, b.qty, b.tp, b.sl));
      AfterOpening(present, rows, date, intent, b, Some(h))
        == logged[|logged| - 1 := logged[|logged| - 1][7 := Label(h.status)]]
  {
    var row := TradeRow(date, intent, b.qty, b.tp, b.sl);
    var logged := Appended(present, rows, row);
    var last := |logged| - 1;
    assert NoMatchBetween(logged, intent.symbol, 1, last) by {
      forall j | 1 <= j < last
        ensures Inspectable(logged[j], intent.symbol) && !Matches(logged[j], intent.symbol)
      {
        assert present && logged[j] == rows[j];
      }
    }
    FindPendingSkip(logged, intent.symbol, 1, last);
    assert Matches(logged[last], intent.symbol);
    assert FindPending(logged, intent.symbol, last) == Found(last);
  }

  /**
   * While the monitor has not seen a hit, the trade stays Pending, so the
   * same signal again is skipped.
   */
  lemma OpenTradeBlocksRepeat(present: bool, rows: seq<Row>, date: string, intent: Intent, b: Bracket)
    ensures Duplicate(true, AfterOpening(present, rows, date, intent, b, None), intent.symbol, SideLabel(intent.side))
  {
    LoggedTradeIsDuplicate(present, rows, date, intent, b.qty, b.tp, b.sl);
  }
  /**
   * Because `update_csv_result` matches only the symbol, opening a BTCUSDT
   * Short next to a Pending BTCUSDT Long closes the Long row at the Short's
   * crossing.  The Short row just logged stays Pending, and from then on it
   * blocks every BTCUSDT Short signal.
   */
  lemma {:induction false} OtherSideRowTakesResult(d0: string, e0: Price, targets0: seq<Price>, qty0: Price,
                                                   tp0: Price, sl0: Price, date: string, intent: Intent,
                                                   b: Bracket, h: Hit)
    requires 'h' !in d0
    requires intent.side == Short && intent.symbol == "BTCUSDT"
    ensures var old0 := TradeRow(d0, Intent(Long, "BTCUSDT", e0, targets0), qty0, tp0, sl0);
      && !Duplicate(true, [Header, old0], "BTCUSDT", "Short")
      && AfterOpening(true, [Header, old0], date, intent, b, Some(h))
           == [Header, old0[7 := Label(h.status)], TradeRow(date, intent, b.qty, b.tp, b.sl)]
      && Duplicate(true, AfterOpening(true, [Header, old0], date, intent, b, Some(h)), "BTCUSDT", "Short")
  {
    var old0 := TradeRow(d0, Intent(Long, "BTCUSDT", e0, targets0), qty0, tp0, sl0);
    var row := TradeRow(date, intent, b.qty, b.tp, b.sl);
    OtherSideNotDuplicate(d0, e0, targets0, qty0, tp0, sl0);
    var logged := Appended(true, [Header, old0], row);
    assert logged == [Header, old0, row];
    assert Inspectable(logged[1], "BTCUSDT") && Matches(logged[1], "BTCUSDT");
    assert FindPending(logged, "BTCUSDT", 1) == Found(1);
    var after := [Header, old0[7 := Label(h.status)], row];
    assert logged[1 := logged[1][7 := Label(h.status)]] == after;
    assert PendingFor(after[2], "BTCUSDT", "Short");
    PendingRowIsDuplicate(after, 2, "BTCUSDT", "Short");
  }
  /**
   * A ledger file that exists but is empty gets no header from `log_to_csv`,
   * so the first trade row takes the header's place: `update_csv_result` and
   * `daily_summary` both skip it.  The trade is never closed and never
   * counted, and it blocks its symbol and type from then on.
   */
  lemma EmptyFileTradeIsHeader(date: string, intent: Intent, b: Bracket, h: Hit, today: string)
    ensures AfterOpening(true, [], date, intent, b, Some(h)) == [TradeRow(date, intent, b.qty, b.tp, b.sl)]
    ensures Duplicate(true, AfterOpening(true, [], date, intent, b, Some(h)), intent.symbol, SideLabel(intent.side))
    ensures Summarize(true, AfterOpening(true, [], date, intent, b, Some(h)), today)
              == Report(MakeSummary(today, Zero))
  {
    var logged := [TradeRow(date, intent, b.qty, b.tp, b.sl)];
    assert Appended(true, [], TradeRow(date, intent, b.qty, b.tp, b.sl)) == logged;
    assert FindPending(logged, intent.symbol, 1) == Missing;
    PendingRowIsDuplicate(logged, 0, intent.symbol, SideLabel(intent.side));
    assert logged[1..] == [];
  }
}
