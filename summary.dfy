/**
 * The daily report (`daily_summary`): a pass over the ledger rows after the
 * header, counting today's TP and SL rows and adding up their profit, then
 * the number of trades and the effectiveness percentage.  "Today" is an
 * input; the clock, time zone and scheduler are outside the model.
 */
module Summary {
  import opened Options
  import opened Text
  import opened Decimal
  import opened Signal
  import opened Rows

  /** Counters of the loop: `tp_count`, `sl_count`, `profit`. */
  datatype Tally = Tally(tp: nat, sl: nat, profit: Price)

  const Zero: Tally := Tally(0, 0, 0)

  function Plus(a: Tally, b: Tally): Tally
  {
    Tally(a.tp + b.tp, a.sl + b.sl, a.profit + b.profit)
  }

  /** Adding counters, where None is a failure that stops the pass. */
  function Combine(a: Option<Tally>, b: Option<Tally>): Option<Tally>
  {
    if a.Some? && b.Some? then Some(Plus(a.value, b.value)) else None
  }

  /** The gain of a trade closed at its take-profit: `tp - entry` for Long, `entry - tp` otherwise. */
  function Gain(sideLabel: string, entry: Price, tp: Price): Price
  {
    if sideLabel == "Long" then tp - entry else entry - tp
  }

  /**
   * What one row adds to the counters.  None where Python raises ValueError:
   * a row that does not have exactly eight cells, or a price cell of a row
   * counted today that is not a number.
   */
  function RowTally(row: Row, today: string): Option<Tally>
  {
    if |row| != 8 then None
    else if !Contains(row[0], today) then Some(Zero)
    else if row[7] == "TP" then
      var entry, tp := Parse(row[3]), Parse(row[4]);
      if entry.Some? && tp.Some? then Some(Tally(1, 0, Gain(row[1], entry.value, tp.value))) else None
    else if row[7] == "SL" then
      var entry, sl := Parse(row[3]), Parse(row[5]);
      if entry.Some? && sl.Some? then Some(Tally(0, 1, -Abs(entry.value - sl.value))) else None
    else Some(Zero)
  }

  /** The counters after the loop has gone over `rows`, in order. */
  function TallyRows(rows: seq<Row>, today: string): Option<Tally>
  {
    if rows == [] then Some(Zero)
    else Combine(TallyRows(rows[..|rows| - 1], today), RowTally(rows[|rows| - 1], today))
  }

  /** The report the bot sends: trades, net profit, effectiveness in percent. */
  datatype DailySummary = DailySummary(date: string, trades: nat, wins: nat, losses: nat,
                                       netProfit: Price, effectiveness: real)

  /** NoLedger: no file, nothing sent.  Failed: the job raised.  Report: the summary. */
  datatype SummaryOutcome = NoLedger | Failed | Report(summary: DailySummary)

  /**
   * The report from final counters: trades = TP + SL, effectiveness is the
   * share of TP trades in percent rounded to two decimals, 0 with no trades.
   */
  function MakeSummary(today: string, t: Tally): (s: DailySummary)
    ensures s.trades == s.wins + s.losses && s.wins == t.tp && s.losses == t.sl
    ensures s.netProfit == t.profit
    ensures 0.0 <= s.effectiveness <= 100.0
    ensures s.trades == 0 ==> s.effectiveness == 0.0
    ensures s.trades > 0 ==>
      -0.005 <= s.effectiveness - (t.tp as real / s.trades as real) * 100.0 <= 0.005
  {
    var total := t.tp + t.sl;
    var eff := if total > 0 then Effectiveness(t.tp, total) else 0.0;
    DailySummary(today, total, t.tp, t.sl, t.profit, eff)
  }

  /** `round(wins / total * 100, 2)`: a percentage between 0 and 100. */
  function Effectiveness(wins: nat, total: nat): (e: real)
    requires wins <= total && total > 0
    ensures 0.0 <= e <= 100.0
    ensures -0.005 <= e - (wins as real / total as real) * 100.0 <= 0.005
  {
    var x := wins as real / total as real * 100.0;
    ShareBounds(wins, total);
    RoundHalfEvenWithin(x * 100.0, 10000);
    RoundTo(x, 100.0)
  }

  /** A share of at most the whole, in percent, lies between 0 and 100. */
  lemma ShareBounds(wins: nat, total: nat)
    requires wins <= total && total > 0
    ensures 0.0 <= wins as real / total as real * 100.0 <= 100.0
  {
    assert wins as real / total as real <= 1.0;
  }

  /** `daily_summary()` over the file: skip the first line, fold the rest. */
  function Summarize(present: bool, rows: seq<Row>, today: string): SummaryOutcome
  {
    if !present then NoLedger
    else if rows == [] then Failed
    else
      match TallyRows(rows[1..], today)
      case None => Failed
      case Some(t) => Report(MakeSummary(today, t))
  }

  lemma CombineAssoc(x: Option<Tally>, y: Option<Tally>, z: Option<Tally>)
    ensures Combine(Combine(x, y), z) == Combine(x, Combine(y, z))
  {
  }

  lemma CombineZero(x: Option<Tally>)
    ensures Combine(x, Some(Zero)) == x
  {
    if x.Some? {
      assert Plus(x.value, Zero) == x.value;
    }
  }

  lemma ZeroCombine(x: Option<Tally>)
    ensures Combine(Some(Zero), x) == x
  {
    if x.Some? {
      assert Plus(Zero, x.value) == x.value;
    }
  }

  /** One step of the pass: the counters over `rows + [row]`. */
  lemma TallySnoc(rows: seq<Row>, row: Row, today: string)
    ensures TallyRows(rows + [row], today) == Combine(TallyRows(rows, today), RowTally(row, today))
  {
    assert (rows + [row])[..|rows|] == rows;
  }

  /** The pass over a ledger split in two is the two passes added up. */
  lemma {:induction false} TallyAppend(a: seq<Row>, b: seq<Row>, today: string)
    ensures TallyRows(a + b, today) == Combine(TallyRows(a, today), TallyRows(b, today))
    decreases |b|
  {
    if b == [] {
      assert a + b == a;
      CombineZero(TallyRows(a, today));
    } else {
      var b', x := b[..|b| - 1], b[|b| - 1];
      assert b == b' + [x];
      assert a + b == (a + b') + [x];
      TallySnoc(a + b', x, today);
      TallySnoc(b', x, today);
      TallyAppend(a, b', today);
      CombineAssoc(TallyRows(a, today), TallyRows(b', today), RowTally(x, today));
    }
  }

  /** Once the pass has failed it stays failed, whatever rows follow. */
  lemma FailureStays(a: seq<Row>, b: seq<Row>, today: string)
    requires TallyRows(a, today).None?
    ensures TallyRows(a + b, today).None?
  {
    TallyAppend(a, b, today);
  }

  /** The counters after the loop has gone over the first `n` rows, by position. */
  function TallyUpTo(rows: seq<Row>, n: nat, today: string): Option<Tally>
    requires n <= |rows|
  {
    if n == 0 then Some(Zero) else Combine(TallyUpTo(rows, n - 1, today), RowTally(rows[n - 1], today))
  }

  /** Counting the first `n` rows by position is counting the prefix of length `n`. */
  lemma {:induction false} UpToIsPrefix(rows: seq<Row>, n: nat, today: string)
    requires n <= |rows|
    ensures TallyUpTo(rows, n, today) == TallyRows(rows[..n], today)
    decreases n
  {
    if n > 0 {
      UpToIsPrefix(rows, n - 1, today);
      assert rows[..n][..n - 1] == rows[..n - 1];
    }
  }

  /** One more turn of the counting loop, on a row that does not raise. */
  lemma UpToAdd(rows: seq<Row>, n: nat, today: string, before: Tally, d: Tally, after: Tally)
    requires n < |rows| && TallyUpTo(rows, n, today) == Some(before)
    requires RowTally(rows[n], today) == Some(d) && after == Plus(before, d)
    ensures TallyUpTo(rows, n + 1, today) == Some(after)
  {
    UpToStep(rows, n, today);
    CombineSome(TallyUpTo(rows, n, today), RowTally(rows[n], today), before, d, after);
  }

  lemma UpToStep(rows: seq<Row>, n: nat, today: string)
    requires n < |rows|
    ensures TallyUpTo(rows, n + 1, today) == Combine(TallyUpTo(rows, n, today), RowTally(rows[n], today))
  {
  }

  lemma CombineSome(a: Option<Tally>, b: Option<Tally>, t: Tally, d: Tally, after: Tally)
    requires a == Some(t) && b == Some(d) && after == Plus(t, d)
    ensures Combine(a, b) == Some(after)
  {
  }

  /** A row that raises ends the whole pass in failure. */
  lemma UpToFailsAt(rows: seq<Row>, n: nat, today: string)
    requires n < |rows| && RowTally(rows[n], today).None?
    ensures TallyRows(rows, today).None?
  {
    UpToFails(rows, n + 1, today);
  }

  lemma UpToFails(rows: seq<Row>, n: nat, today: string)
    requires n <= |rows| && TallyUpTo(rows, n, today).None?
    ensures TallyRows(rows, today).None?
  {
    UpToIsPrefix(rows, n, today);
    FailureStays(rows[..n], rows[n..], today);
    assert rows == rows[..n] + rows[n..];
  }

  lemma TallyOne(row: Row, today: string)
    ensures TallyRows([row], today) == RowTally(row, today)
  {
    TallySnoc([], row, today);
    assert [] + [row] == [row];
    ZeroCombine(RowTally(row, today));
  }

  /** A Pending row, such as the one `log_to_csv` appends, counts for nothing. */
  lemma PendingRowCountsNothing(row: Row, today: string)
    requires |row| == 8 && row[7] == "Pending"
    ensures RowTally(row, today) == Some(Zero)
  {
  }

  /** A row whose date does not contain today counts for nothing, whatever its result. */
  lemma OtherDayCountsNothing(row: Row, today: string)
    requires |row| == 8 && !Contains(row[0], today)
    ensures RowTally(row, today) == Some(Zero)
  {
  }

  lemma TallyAppendNeutral(a: seq<Row>, row: Row, today: string)
    requires RowTally(row, today) == Some(Zero)
    ensures TallyRows(a + [row], today) == TallyRows(a, today)
  {
    TallySnoc(a, row, today);
    CombineZero(TallyRows(a, today));
  }

  /** Appending a row that counts for nothing leaves the report as it was. */
  lemma AppendNeutralRow(rows: seq<Row>, row: Row, today: string)
    requires rows != [] && RowTally(row, today) == Some(Zero)
    ensures Summarize(true, rows + [row], today) == Summarize(true, rows, today)
  {
    assert (rows + [row])[1..] == rows[1..] + [row];
    TallyAppendNeutral(rows[1..], row, today);
  }

  /** Logging a new trade does not change the day's report. */
  lemma LogKeepsSummary(rows: seq<Row>, date: string, intent: Intent, qty: Price, tp: Price, sl: Price,
                        today: string)
    requires rows != []
    ensures Summarize(true, Appended(true, rows, TradeRow(date, intent, qty, tp, sl)), today)
         == Summarize(true, rows, today)
  {
    var row := TradeRow(date, intent, qty, tp, sl);
    PendingRowCountsNothing(row, today);
    AppendNeutralRow(rows, row, today);
    assert Appended(true, rows, row) == rows + [row];
  }

  /** On a ledger the bot wrote, the report is always produced. */
  lemma {:induction false} WellFormedTallies(rows: seq<Row>, today: string)
    requires forall i | 0 <= i < |rows| :: TradeShaped(rows[i])
    ensures TallyRows(rows, today).Some?
    decreases |rows|
  {
    if rows != [] {
      WellFormedTallies(rows[..|rows| - 1], today);
      assert TradeShaped(rows[|rows| - 1]);
    }
  }

  lemma WellFormedReports(rows: seq<Row>, today: string)
    requires WellFormed(true, rows)
    ensures Summarize(true, rows, today).Report?
  {
    WellFormedTallies(rows[1..], today);
  }

  /** The pass over rows before, one row, and rows after. */
  lemma TallySplit(before: seq<Row>, row: Row, after: seq<Row>, today: string)
    ensures TallyRows(before + [row] + after, today)
         == Combine(Combine(TallyRows(before, today), RowTally(row, today)), TallyRows(after, today))
  {
    TallyAppend(before + [row], after, today);
    TallySnoc(before, row, today);
  }

  /** Counter arithmetic: a row worth nothing becomes a row worth one win and `g`. */
  lemma ReplaceNothingWithWin(tb: Option<Tally>, was: Option<Tally>, now: Option<Tally>, ta: Option<Tally>,
                               t: Tally, g: Price)
    requires was == Some(Zero) && now == Some(Tally(1, 0, g))
    requires Combine(Combine(tb, was), ta) == Some(t)
    ensures Combine(Combine(tb, now), ta) == Some(Tally(t.tp + 1, t.sl, t.profit + g))
  {
  }

  /** The gain a row records if it is closed at its take-profit. */
  function WinOf(row: Row): Price
    requires |row| == 8 && Parse(row[3]).Some? && Parse(row[4]).Some?
  {
    Gain(row[1], Parse(row[3]).value, Parse(row[4]).value)
  }

  /** A Pending row of today counts nothing; marked TP it counts one win and its gain. */
  lemma CloseRow(row: Row, today: string)
    requires |row| == 8 && Parse(row[3]).Some? && Parse(row[4]).Some?
    requires row[7] == "Pending" && Contains(row[0], today)
    ensures RowTally(row, today) == Some(Zero)
    ensures RowTally(row[7 := "TP"], today) == Some(Tally(1, 0, WinOf(row)))
  {
  }

  /** The pass over a ledger with row `i` replaced: the rows before, the new row, the rows after. */
  lemma ReplaceRow(rows: seq<Row>, i: nat, row: Row, today: string)
    requires i < |rows|
    ensures TallyRows(rows[i := row], today)
         == Combine(Combine(TallyRows(rows[..i], today), RowTally(row, today)), TallyRows(rows[i + 1..], today))
  {
    assert rows[i := row] == rows[..i] + [row] + rows[i + 1..];
    TallySplit(rows[..i], row, rows[i + 1..], today);
  }

  /** Putting a row worth one win of `g` where a row worth nothing was adds that win. */
  lemma SwapNothingForWin(rows: seq<Row>, i: nat, row: Row, today: string, t: Tally, g: Price)
    requires i < |rows| && TallyRows(rows, today) == Some(t)
    requires RowTally(rows[i], today) == Some(Zero) && RowTally(row, today) == Some(Tally(1, 0, g))
    ensures TallyRows(rows[i := row], today) == Some(Tally(t.tp + 1, t.sl, t.profit + g))
  {
    ReplaceRow(rows, i, rows[i], today);
    KeepRow(rows, i);
    ReplaceRow(rows, i, row, today);
    ReplaceNothingWithWin(TallyRows(rows[..i], today), RowTally(rows[i], today), RowTally(row, today),
                          TallyRows(rows[i + 1..], today), t, g);
  }

  /** Writing a row back over itself leaves the ledger as it was. */
  lemma KeepRow(rows: seq<Row>, i: nat)
    requires i < |rows|
    ensures rows[i := rows[i]] == rows
  {
  }

  /**
   * Closing one Pending row dated today as TP adds one win and its gain to
   * the day's counters; nothing else changes.
   */
  lemma ClosingWithTPCountsOnce(rows: seq<Row>, i: nat, today: string, t: Tally, closed: Row, g: Price)
    requires i < |rows| && |rows[i]| == 8 && Parse(rows[i][3]).Some? && Parse(rows[i][4]).Some?
    requires rows[i][7] == "Pending" && Contains(rows[i][0], today)
    requires TallyRows(rows, today) == Some(t)
    requires closed == rows[i][7 := "TP"] && g == WinOf(rows[i])
    ensures TallyRows(rows[i := closed], today) == Some(Tally(t.tp + 1, t.sl, t.profit + g))
  {
    CloseRow(rows[i], today);
    SwapNothingForWin(rows, i, closed, today, t, g);
  }

  /** One win out of two trades is an effectiveness of exactly 50%. */
  lemma HalfEffectiveness()
    ensures Effectiveness(1, 2) == 50.0
  {
    assert Pow10(2) == 100;
    assert RoundHalfEven(1.0 / 2.0 * 100.0 * 100.0) == 5000;
  }

  /** The row's date cell starts with today, so the row is one of today's. */
  lemma DatedToday(row: Row, today: string, time: string)
    requires |row| == 8 && row[0] == today + time
    ensures Contains(row[0], today)
  {
    ContainsSelf(today);
    ContainsExtendRight(today, time, today);
  }

  lemma TPRowTally(row: Row, today: string, entry: Price, tp: Price)
    requires |row| == 8 && Contains(row[0], today) && row[7] == "TP"
    requires Parse(row[3]) == Some(entry) && Parse(row[4]) == Some(tp)
    ensures RowTally(row, today) == Some(Tally(1, 0, Gain(row[1], entry, tp)))
  {
  }

  lemma SLRowTally(row: Row, today: string, entry: Price, sl: Price)
    requires |row| == 8 && Contains(row[0], today) && row[7] == "SL"
    requires Parse(row[3]) == Some(entry) && Parse(row[5]) == Some(sl)
    ensures RowTally(row, today) == Some(Tally(0, 1, -Abs(entry - sl)))
  {
    assert row[7] != "TP";
  }

  /**
   * The row `log_to_csv` writes counts nothing while Pending; once
   * `update_csv_result` marks it TP it counts one win of its gain, and
   * marked SL one loss of |entry - sl|, on every day its date contains.
   */
  lemma LoggedRowCounts(date: string, today: string, intent: Intent, qty: Price, tp: Price, sl: Price)
    requires Contains(date, today)
    ensures RowTally(TradeRow(date, intent, qty, tp, sl), today) == Some(Zero)
    ensures RowTally(TradeRow(date, intent, qty, tp, sl)[7 := "TP"], today)
         == Some(Tally(1, 0, Gain(SideLabel(intent.side), intent.entry, tp)))
    ensures RowTally(TradeRow(date, intent, qty, tp, sl)[7 := "SL"], today)
         == Some(Tally(0, 1, -Abs(intent.entry - sl)))
  {
    TradeRowReadsBack(date, intent, qty, tp, sl);
    ClosedCounts(TradeRow(date, intent, qty, tp, sl), today, intent.entry, tp, sl);
  }

  /** The same for any eight-cell Pending row of today whose price cells read back. */
  lemma ClosedCounts(row: Row, today: string, entry: Price, tp: Price, sl: Price)
    requires |row| == 8 && Contains(row[0], today) && row[7] == "Pending"
    requires Parse(row[3]) == Some(entry) && Parse(row[4]) == Some(tp) && Parse(row[5]) == Some(sl)
    ensures RowTally(row, today) == Some(Zero)
    ensures RowTally(row[7 := "TP"], today) == Some(Tally(1, 0, Gain(row[1], entry, tp)))
    ensures RowTally(row[7 := "SL"], today) == Some(Tally(0, 1, -Abs(entry - sl)))
  {
    TPRowTally(row[7 := "TP"], today, entry, tp);
    SLRowTally(row[7 := "SL"], today, entry, sl);
  }

  /** A Long row of today at TP, whatever its cells hold, counts one win of tp - entry. */
  lemma LongWinCells(today: string, time: string, symbol: string, e: string, t: string, s: string, q: string,
                     entry: Price, tp: Price)
    requires Parse(e) == Some(entry) && Parse(t) == Some(tp)
    ensures RowTally([today + time, "Long", symbol, e, t, s, q, "TP"], today) == Some(Tally(1, 0, tp - entry))
  {
    var row := [today + time, "Long", symbol, e, t, s, q, "TP"];
    DatedToday(row, today, time);
    TPRowTally(row, today, entry, tp);
  }

  /** A Long row of today at SL, whatever its cells hold, counts one loss of |entry - sl|. */
  lemma LongLossCells(today: string, time: string, symbol: string, e: string, t: string, s: string, q: string,
                      entry: Price, sl: Price)
    requires Parse(e) == Some(entry) && Parse(s) == Some(sl)
    ensures RowTally([today + time, "Long", symbol, e, t, s, q, "SL"], today) == Some(Tally(0, 1, -Abs(entry - sl)))
  {
    var row := [today + time, "Long", symbol, e, t, s, q, "SL"];
    DatedToday(row, today, time);
    SLRowTally(row, today, entry, sl);
  }

  /** A Long row of today closed at TP counts one win of tp - entry. */
  lemma WinRowCounts(today: string, time: string, entry: Price, tp: Price, sl: Price, qty: Price)
    ensures RowTally([today + time, "Long", "BTCUSDT", Show(entry), Show(tp), Show(sl), Show(qty), "TP"], today)
         == Some(Tally(1, 0, tp - entry))
  {
    ParseShow(entry);
    ParseShow(tp);
    LongWinCells(today, time, "BTCUSDT", Show(entry), Show(tp), Show(sl), Show(qty), entry, tp);
  }

  /** A row of today closed at SL counts one loss of |entry - sl|. */
  lemma LossRowCounts(today: string, time: string, entry: Price, tp: Price, sl: Price, qty: Price)
    ensures RowTally([today + time, "Long", "ETHUSDT", Show(entry), Show(tp), Show(sl), Show(qty), "SL"], today)
         == Some(Tally(0, 1, -Abs(entry - sl)))
  {
    ParseShow(entry);
    ParseShow(sl);
    LongLossCells(today, time, "ETHUSDT", Show(entry), Show(tp), Show(sl), Show(qty), entry, sl);
  }

  /**
   * Two rows of the same day, a Long closed at TP (entry 100, tp 110) and a
   * Long closed at SL (entry 100, sl 95): 2 trades, net profit 5, 50%.
   */
  lemma SummaryExample(today: string, time: string, qty: Price)
    ensures var win, loss :=
        [today + time, "Long", "BTCUSDT", Show(100 * Scale), Show(110 * Scale), Show(90 * Scale), Show(qty), "TP"],
        [today + time, "Long", "ETHUSDT", Show(100 * Scale), Show(105 * Scale), Show(95 * Scale), Show(qty), "SL"];
      Summarize(true, [Header, win, loss], today)
        == Report(DailySummary(today, 2, 1, 1, 5 * Scale, 50.0))
  {
    WinRowCounts(today, time, 100 * Scale, 110 * Scale, 90 * Scale, qty);
    LossRowCounts(today, time, 100 * Scale, 105 * Scale, 95 * Scale, qty);
    OneWinOneLoss(today,
      [today + time, "Long", "BTCUSDT", Show(100 * Scale), Show(110 * Scale), Show(90 * Scale), Show(qty), "TP"],
      [today + time, "Long", "ETHUSDT", Show(100 * Scale), Show(105 * Scale), Show(95 * Scale), Show(qty), "SL"]);
  }

  /** A ledger of a win of 10 and a loss of 5, in any cells: 2 trades, net 5, 50%. */
  lemma OneWinOneLoss(today: string, win: Row, loss: Row)
    requires RowTally(win, today) == Some(Tally(1, 0, 10 * Scale))
    requires RowTally(loss, today) == Some(Tally(0, 1, -5 * Scale))
    ensures Summarize(true, [Header, win, loss], today) == Report(DailySummary(today, 2, 1, 1, 5 * Scale, 50.0))
  {
    var rows := [Header, win, loss];
    assert rows[1..] == [win] + [loss];
    TallyOne(win, today);
    TallySnoc([win], loss, today);
    assert TallyRows([win, loss], today) == Some(Tally(1, 1, 5 * Scale));
    HalfEffectiveness();
  }
}
