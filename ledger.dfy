/**
 * The ledger file CSV_LOG_FILE as an object: whether it exists and the rows it
 * holds.  Each method is one of the bot's file routines and is proved against
 * the meaning given in module Rows (and Summary for the daily report).
 */
module Ledger {
  import opened Options
  import opened Text
  import opened Decimal
  import opened Signal
  import opened Rows
  import opened Summary

  /**
   * The loop of `daily_summary` over the data rows: TP count, SL count and
   * net profit of the rows dated today, or None once a row raises.  Each
   * turn adds the row's contribution, `RowTally`.
   */
  method CountRows(data: seq<Row>, today: string) returns (counted: Option<Tally>)
    ensures counted == TallyRows(data, today)
  {
    var tpCount: nat, slCount: nat, profit: Price := 0, 0, 0;
    var i := 0;
    while i < |data|
      invariant 0 <= i <= |data|
      invariant TallyUpTo(data, i, today) == Some(Tally(tpCount, slCount, profit))
    {
      var delta := RowTally(data[i], today);
      if delta.None? {
        UpToFailsAt(data, i, today);
        return None;
      }
      var d := delta.value;
      ghost var before := Tally(tpCount, slCount, profit);
      tpCount, slCount, profit := tpCount + d.tp, slCount + d.sl, profit + d.profit;
      UpToAdd(data, i, today, before, d, Tally(tpCount, slCount, profit));
      i := i + 1;
    }
    UpToIsPrefix(data, i, today);
    assert data[..i] == data;
    return Some(Tally(tpCount, slCount, profit));
  }

  /**
   * The loop of `update_csv_result` over the data rows: the first row with
   * this symbol that is Pending, none, or the row where indexing raises.
   */
  method ScanPending(rows: seq<Row>, symbol: string) returns (scan: Scan)
    requires rows != []
    ensures scan == FindPending(rows, symbol, 1)
  {
    var i := 1;
    while i < |rows|
      invariant 1 <= i <= |rows|
      invariant FindPending(rows, symbol, 1) == FindPending(rows, symbol, i)
    {
      var row := rows[i];
      if |row| <= 2 {
        return Crash;
      }
      if row[2] == symbol {
        if |row| <= 7 {
          return Crash;
        }
        if row[7] == "Pending" {
          return Found(i);
        }
      }
      i := i + 1;
    }
    return Missing;
  }

  class TradeLog {
    /** `os.path.exists(CSV_LOG_FILE)`. */
    var present: bool
    /** The file's rows, as `csv.reader` would return them. */
    var rows: seq<Row>

    /** The file as the bot writes it: absent, or the header followed by trade rows. */
    ghost predicate Valid()
      reads this
    {
      WellFormed(present, rows)
    }

    constructor (present: bool, rows: seq<Row>)
      requires !present ==> rows == []
      ensures this.present == present && this.rows == rows
    {
      this.present := present;
      this.rows := rows;
    }

    /**
     * `is_duplicate(symbol, signal_type)`: False when there is no file,
     * otherwise whether some line contains the symbol, the type and "Pending".
     */
    method IsDuplicate(symbol: string, sideLabel: string) returns (dup: bool)
      ensures dup == Duplicate(present, rows, symbol, sideLabel)
    {
      if !present {
        return false;
      }
      var i := 0;
      while i < |rows|
        invariant 0 <= i <= |rows|
        invariant forall j | 0 <= j < i :: !Flagged(Line(rows[j]), symbol, sideLabel)
      {
        var line := Line(rows[i]);
        if Contains(line, symbol) && Contains(line, sideLabel) && Contains(line, "Pending") {
          return true;
        }
        i := i + 1;
      }
      return false;
    }

    /** `log_to_csv`: the header if the file is new, then one Pending row. */
    method LogToCsv(date: string, intent: Intent, qty: Price, tp: Price, sl: Price)
      modifies this
      ensures present
      ensures rows == Appended(old(present), old(rows), TradeRow(date, intent, qty, tp, sl))
      ensures old(Valid()) ==> Valid()
    {
      var existed := present;
      present := true;
      if !existed {
        rows := rows + [Header];
      }
      rows := rows + [TradeRow(date, intent, qty, tp, sl)];
      if old(Valid()) {
        LogKeepsWellFormed(old(present), old(rows), date, intent, qty, tp, sl);
      }
    }

    /**
     * `update_csv_result(symbol, result)`: read the rows, put `result` in the
     * Result cell of the first data row with this symbol that is Pending,
     * write the rows back.  `ok` is false where Python raises (no file, or a
     * row too short to index), and then the file is not written.
     */
    method UpdateCsvResult(symbol: string, result: string) returns (ok: bool)
      modifies this
      ensures present == old(present)
      ensures ok <==> old(present) && UpdatedRows(old(rows), symbol, result).Some?
      ensures rows == if ok then UpdatedRows(old(rows), symbol, result).value else old(rows)
      ensures old(Valid()) && old(present) && (result == Label(TP) || result == Label(SL)) ==> ok && Valid()
    {
      if !present {
        return false;
      }
      if Valid() && (result == Label(TP) || result == Label(SL)) {
        UpdateKeepsWellFormed(rows, symbol, if result == Label(TP) then TP else SL);
      }
      if rows == [] {
        return true;
      }
      var scan := ScanPending(rows, symbol);
      match scan
      case Found(i) =>
        rows := rows[i := rows[i][7 := result]];
        return true;
      case Missing =>
        return true;
      case Crash =>
        return false;
    }

    /**
     * `daily_summary()`: nothing without a file; otherwise skip the first
     * line and count today's TP and SL rows and their profit.
     */
    method DailyReport(today: string) returns (outcome: SummaryOutcome)
      ensures outcome == Summarize(present, rows, today)
    {
      if !present {
        return NoLedger;
      }
      if rows == [] {
        return Failed;
      }
      var counted := CountRows(rows[1..], today);
      if counted.None? {
        return Failed;
      }
      // trades, net profit and the rounded effectiveness from the final counters
      outcome := Report(MakeSummary(today, counted.value));
    }
  }
}
