/**
 * The trade ledger CSV_LOG_FILE as rows of text cells, with the columns
 * Date, Type, Symbol, Entry, TP, SL, Qty, Result.  This module holds what the
 * ledger operations mean: the row `log_to_csv` appends, the line test of
 * `is_duplicate`, and the rewrite of `update_csv_result`.
 */
module Rows {
  import opened Options
  import opened Text
  import opened Decimal
  import opened Signal

  /** One CSV row as `csv.reader` returns it: a list of cells. */
  type Row = seq<string>

  const Header: Row := ["Date", "Type", "Symbol", "Entry", "TP", "SL", "Qty", "Result"]

  /** The Result column: a trade is Pending until the monitor sees TP or SL. */
  datatype Status = Pending | TP | SL

  function Label(s: Status): string
  {
    match s
    case Pending => "Pending"
    case TP => "TP"
    case SL => "SL"
  }

  /** The row `log_to_csv` writes for an opened trade; its Result is Pending. */
  function TradeRow(date: string, intent: Intent, qty: Price, tp: Price, sl: Price): (row: Row)
    ensures |row| == 8
    ensures row[0] == date && row[1] == SideLabel(intent.side) && row[2] == intent.symbol
    ensures row[7] == Label(Pending)
  {
    [date, SideLabel(intent.side), intent.symbol, Show(intent.entry), Show(tp), Show(sl), Show(qty), "Pending"]
  }

  /** The four price cells of a logged row read back as the numbers that were written. */
  lemma TradeRowReadsBack(date: string, intent: Intent, qty: Price, tp: Price, sl: Price)
    ensures Parse(TradeRow(date, intent, qty, tp, sl)[3]) == Some(intent.entry)
    ensures Parse(TradeRow(date, intent, qty, tp, sl)[4]) == Some(tp)
    ensures Parse(TradeRow(date, intent, qty, tp, sl)[5]) == Some(sl)
    ensures Parse(TradeRow(date, intent, qty, tp, sl)[6]) == Some(qty)
  {
    ParseShow(intent.entry);
    ParseShow(tp);
    ParseShow(sl);
    ParseShow(qty);
  }

  /**
   * The ledger after `log_to_csv`: the header first when the file did not
   * exist, then the new row at the end.
   */
  function Appended(present: bool, rows: seq<Row>, row: Row): (r: seq<Row>)
    ensures |r| == |rows| + (if present then 1 else 2)
    ensures r[|r| - 1] == row
    ensures r[..|rows|] == rows
    ensures !present ==> r[|rows|] == Header
  {
    rows + (if present then [] else [Header]) + [row]
  }

  /** A line of the file as `for line in f` yields it: the cells joined by commas, then the newline. */
  function Line(row: Row): string
  {
    Join(row) + "\n"
  }

  /** The test `is_duplicate` applies to one line: three substring tests. */
  predicate Flagged(line: string, symbol: string, sideLabel: string)
  {
    Contains(line, symbol) && Contains(line, sideLabel) && Contains(line, "Pending")
  }

  /** What `is_duplicate` answers: the file exists and some line passes the test. */
  predicate Duplicate(present: bool, rows: seq<Row>, symbol: string, sideLabel: string)
  {
    present && exists i | 0 <= i < |rows| :: Flagged(Line(rows[i]), symbol, sideLabel)
  }

  /** A row holding exactly this symbol and type, still Pending. */
  predicate PendingFor(row: Row, symbol: string, sideLabel: string)
  {
    |row| == 8 && row[1] == sideLabel && row[2] == symbol && row[7] == "Pending"
  }

  lemma CellInLine(row: Row, k: nat, sub: string)
    requires k < |row| && Contains(row[k], sub)
    ensures Contains(Line(row), sub)
  {
    ContainsCell(row, k, sub);
    ContainsExtendRight(Join(row), "\n", sub);
  }

  /** A Pending row whose Type is `sideLabel` and whose Symbol contains `symbol` passes the line test. */
  lemma CellsFlagged(row: Row, symbol: string, sideLabel: string)
    requires |row| == 8 && row[1] == sideLabel && row[7] == "Pending" && Contains(row[2], symbol)
    ensures Flagged(Line(row), symbol, sideLabel)
  {
    ContainsSelf(sideLabel);
    ContainsSelf("Pending");
    CellInLine(row, 2, symbol);
    CellInLine(row, 1, sideLabel);
    CellInLine(row, 7, "Pending");
  }

  /** A Pending row for the same symbol and type is always reported as a duplicate. */
  lemma PendingRowIsDuplicate(rows: seq<Row>, i: nat, symbol: string, sideLabel: string)
    requires i < |rows| && PendingFor(rows[i], symbol, sideLabel)
    ensures Duplicate(true, rows, symbol, sideLabel)
  {
    ContainsSelf(symbol);
    CellsFlagged(rows[i], symbol, sideLabel);
  }

  /** Once a trade is logged, the same symbol and type is a duplicate (the guard blocks re-entry). */
  lemma LoggedTradeIsDuplicate(present: bool, rows: seq<Row>, date: string, intent: Intent,
                               qty: Price, tp: Price, sl: Price)
    ensures Duplicate(true, Appended(present, rows, TradeRow(date, intent, qty, tp, sl)),
                      intent.symbol, SideLabel(intent.side))
  {
    var r := Appended(present, rows, TradeRow(date, intent, qty, tp, sl));
    PendingRowIsDuplicate(r, |r| - 1, intent.symbol, SideLabel(intent.side));
  }

  /**
   * The test is on substrings of the whole line, not on the Symbol cell: a
   * Pending BTCUSDT Long row makes a BTC Long signal a duplicate, though no
   * row has the symbol BTC.
   */
  lemma SubstringDuplicate(date: string, entry: Price, targets: seq<Price>, qty: Price, tp: Price, sl: Price)
    ensures var row := TradeRow(date, Intent(Long, "BTCUSDT", entry, targets), qty, tp, sl);
      && Duplicate(true, [Header, row], "BTC", "Long")
      && Header[2] != "BTC" && row[2] != "BTC"
  {
    var row := TradeRow(date, Intent(Long, "BTCUSDT", entry, targets), qty, tp, sl);
    BtcInPair();
    CellsFlagged(row, "BTC", "Long");
    assert [Header, row][1] == row;
  }

  lemma BtcInPair()
    ensures Contains("BTCUSDT", "BTC")
  {
    ContainsSelf("BTC");
    assert "BTCUSDT" == "BTC" + "USDT";
    ContainsExtendRight("BTC", "USDT", "BTC");
  }

  /** Text without commas or newlines found in a line lies within one of the row's cells. */
  lemma LineCell(row: Row, sub: string) returns (k: nat)
    requires Contains(Line(row), sub) && ',' !in sub && '\n' !in sub && |sub| > 0
    ensures k < |row| && Contains(row[k], sub)
  {
    assert Line(row) == Join(row) + ['\n'] + "";
    ContainsAcross(Join(row), '\n', "", sub);
    CellOfJoin(row, sub);
    k :| 0 <= k < |row| && Contains(row[k], sub);
  }

  /**
   * The converse of CellsFlagged: a line passes the test only when some cell
   * holds the symbol, some cell the type and some cell "Pending".
   */
  lemma FlaggedCells(row: Row, symbol: string, sideLabel: string)
    requires Flagged(Line(row), symbol, sideLabel)
    requires |symbol| > 0 && ',' !in symbol && '\n' !in symbol
    requires |sideLabel| > 0 && ',' !in sideLabel && '\n' !in sideLabel
    ensures exists k | 0 <= k < |row| :: Contains(row[k], symbol)
    ensures exists k | 0 <= k < |row| :: Contains(row[k], sideLabel)
    ensures exists k | 0 <= k < |row| :: Contains(row[k], "Pending")
  {
    var a := LineCell(row, symbol);
    var b := LineCell(row, sideLabel);
    var c := LineCell(row, "Pending");
  }

  /** When no cell holds some character of the type, the line never passes the test. */
  lemma NotFlaggedWithoutSide(cells: Row, symbol: string, sideLabel: string, j: nat)
    requires j < |sideLabel| && ',' !in sideLabel && '\n' !in sideLabel
    requires forall k | 0 <= k < |cells| :: sideLabel[j] !in cells[k]
    ensures !Flagged(Line(cells), symbol, sideLabel)
  {
    if Flagged(Line(cells), symbol, sideLabel) {
      var k := LineCell(cells, sideLabel);
      MissingChar(cells[k], sideLabel, j);
      assert false;
    }
  }

  /**
   * The test does look at the type: a ledger whose only trade is a Pending
   * BTCUSDT Long does not block a BTCUSDT Short.
   */
  lemma OtherSideNotDuplicate(date: string, entry: Price, targets: seq<Price>, qty: Price, tp: Price, sl: Price)
    requires 'h' !in date
    ensures !Duplicate(true, [Header, TradeRow(date, Intent(Long, "BTCUSDT", entry, targets), qty, tp, sl)],
                       "BTCUSDT", "Short")
  {
    ShowWithoutLetter(entry);
    ShowWithoutLetter(tp);
    ShowWithoutLetter(sl);
    ShowWithoutLetter(qty);
    LongCellsNotFlagged(date, Show(entry), Show(tp), Show(sl), Show(qty));
    HeaderNotFlagged();
    NeitherLineFlagged(Header, TradeRow(date, Intent(Long, "BTCUSDT", entry, targets), qty, tp, sl),
                       "BTCUSDT", "Short");
  }

  /** A Long BTCUSDT Pending row whose other cells hold no 'h' is not flagged for a Short. */
  lemma LongCellsNotFlagged(date: string, e: string, t: string, s: string, q: string)
    requires 'h' !in date && 'h' !in e && 'h' !in t && 'h' !in s && 'h' !in q
    ensures !Flagged(Line([date, "Long", "BTCUSDT", e, t, s, q, "Pending"]), "BTCUSDT", "Short")
  {
    var cells := [date, "Long", "BTCUSDT", e, t, s, q, "Pending"];
    forall k | 0 <= k < |cells| ensures "Short"[1] !in cells[k]
    {
      assert k == 0 || k == 1 || k == 2 || k == 3 || k == 4 || k == 5 || k == 6 || k == 7;
    }
    NotFlaggedWithoutSide(cells, "BTCUSDT", "Short", 1);
  }

  lemma NeitherLineFlagged(a: Row, b: Row, symbol: string, sideLabel: string)
    requires !Flagged(Line(a), symbol, sideLabel) && !Flagged(Line(b), symbol, sideLabel)
    ensures !Duplicate(true, [a, b], symbol, sideLabel)
  {
    assert [a, b][0] == a && [a, b][1] == b;
  }

  /** The header line never passes the test for a Short. */
  lemma HeaderNotFlagged()
    ensures !Flagged(Line(Header), "BTCUSDT", "Short")
  {
    forall k | 0 <= k < |Header| ensures "Short"[1] !in Header[k]
    {
      assert k == 0 || k == 1 || k == 2 || k == 3 || k == 4 || k == 5 || k == 6 || k == 7;
    }
    NotFlaggedWithoutSide(Header, "BTCUSDT", "Short", 1);
  }

  /** A written number holds no letter. */
  lemma ShowWithoutLetter(p: Price)
    ensures 'h' !in Show(p)
  {
    ShowAlphabet(p);
  }

  /** How many rows are Pending for exactly this symbol and type. */
  function PendingCount(rows: seq<Row>, symbol: string, sideLabel: string): nat
  {
    if rows == [] then 0
    else PendingCount(rows[..|rows| - 1], symbol, sideLabel)
         + (if PendingFor(rows[|rows| - 1], symbol, sideLabel) then 1 else 0)
  }

  lemma {:induction false} NoPendingCountZero(rows: seq<Row>, symbol: string, sideLabel: string)
    requires forall i | 0 <= i < |rows| :: !PendingFor(rows[i], symbol, sideLabel)
    ensures PendingCount(rows, symbol, sideLabel) == 0
    decreases |rows|
  {
    if rows != [] {
      NoPendingCountZero(rows[..|rows| - 1], symbol, sideLabel);
    }
  }

  /**
   * When the guard lets a trade through, the ledger afterwards holds exactly
   * one Pending row for its symbol and type: the one just appended.
   */
  lemma {:induction false} GuardKeepsPendingUnique(present: bool, rows: seq<Row>, date: string, intent: Intent,
                                                   qty: Price, tp: Price, sl: Price)
    requires present || rows == []
    requires !Duplicate(present, rows, intent.symbol, SideLabel(intent.side))
    ensures PendingCount(Appended(present, rows, TradeRow(date, intent, qty, tp, sl)),
                         intent.symbol, SideLabel(intent.side)) == 1
  {
    var symbol, lbl := intent.symbol, SideLabel(intent.side);
    forall i | 0 <= i < |rows| ensures !PendingFor(rows[i], symbol, lbl) {
      if PendingFor(rows[i], symbol, lbl) {
        PendingRowIsDuplicate(rows, i, symbol, lbl);
      }
    }
    NoPendingCountZero(rows, symbol, lbl);
    var row := TradeRow(date, intent, qty, tp, sl);
    var r := Appended(present, rows, row);
    assert r[..|r| - 1] == rows + (if present then [] else [Header]);
    if !present {
      assert (rows + [Header])[..|rows|] == rows;
      assert !PendingFor(Header, symbol, lbl);
    }
  }

  // ----- update_csv_result -----

  /** `row[2] == symbol and row[7] == 'Pending'`. */
  predicate Matches(row: Row, symbol: string)
  {
    |row| > 7 && row[2] == symbol && row[7] == "Pending"
  }

  /** The test can be evaluated on this row without an IndexError. */
  predicate Inspectable(row: Row, symbol: string)
  {
    |row| > 2 && (row[2] == symbol ==> |row| > 7)
  }

  /** Rows lo..hi-1 are inspected without error and none matches. */
  predicate NoMatchBetween(rows: seq<Row>, symbol: string, lo: nat, hi: nat)
    requires hi <= |rows|
  {
    forall j | lo <= j < hi :: Inspectable(rows[j], symbol) && !Matches(rows[j], symbol)
  }

  /** How the scan of `update_csv_result` ends. */
  datatype Scan = Found(index: nat) | Missing | Crash

  /** The scan from row `from` on: the first match, no match, or an IndexError. */
  function FindPending(rows: seq<Row>, symbol: string, from: nat): (s: Scan)
    requires from <= |rows|
    ensures s.Found? ==>
      from <= s.index < |rows| && Matches(rows[s.index], symbol) && NoMatchBetween(rows, symbol, from, s.index)
    ensures s.Missing? ==> NoMatchBetween(rows, symbol, from, |rows|)
    ensures s.Crash? ==> exists j | from <= j < |rows| ::
      !Inspectable(rows[j], symbol) && NoMatchBetween(rows, symbol, from, j)
    decreases |rows| - from
  {
    if from == |rows| then Missing
    else if !Inspectable(rows[from], symbol) then Crash
    else if Matches(rows[from], symbol) then Found(from)
    else FindPending(rows, symbol, from + 1)
  }

  /** Where the scan resumes after rows that cannot stop it, it ends the same way. */
  lemma {:induction false} FindPendingSkip(rows: seq<Row>, symbol: string, from: nat, i: nat)
    requires from <= i <= |rows| && NoMatchBetween(rows, symbol, from, i)
    ensures FindPending(rows, symbol, from) == FindPending(rows, symbol, i)
    decreases i - from
  {
    if from < i {
      FindPendingSkip(rows, symbol, from + 1, i);
    }
  }

  /**
   * The ledger after `update_csv_result(symbol, result)`: the first data row
   * (after the header) with this symbol that is Pending gets `result` in its
   * Result cell.  None when the scan hits a row too short to index.
   */
  function UpdatedRows(rows: seq<Row>, symbol: string, result: string): Option<seq<Row>>
  {
    if rows == [] then Some(rows)
    else
      match FindPending(rows, symbol, 1)
      case Found(i) => Some(rows[i := rows[i][7 := result]])
      case Missing => Some(rows)
      case Crash => None
  }

  /**
   * At most one row changes, and only in its Result cell: the earliest data
   * row that matches.  Header, row count and every other row are kept.
   */
  lemma UpdateTouchesFirstPendingOnly(rows: seq<Row>, symbol: string, result: string, j: nat)
    requires UpdatedRows(rows, symbol, result).Some? && j < |rows|
    ensures var r := UpdatedRows(rows, symbol, result).value;
      && |r| == |rows|
      && (r[j] == rows[j] || (
            && 1 <= j
            && Matches(rows[j], symbol)
            && NoMatchBetween(rows, symbol, 1, j)
            && r[j] == rows[j][7 := result]))
  {
  }

  /** With no Pending row for the symbol after the header, the ledger is left as it was. */
  lemma UpdateWithoutMatchKeepsRows(rows: seq<Row>, symbol: string, result: string)
    requires |rows| >= 1 && NoMatchBetween(rows, symbol, 1, |rows|)
    ensures UpdatedRows(rows, symbol, result) == Some(rows)
  {
    FindPendingSkip(rows, symbol, 1, |rows|);
  }

  /**
   * The update looks at the symbol only, not the type: with a Pending Long row
   * for a symbol logged before a Pending Short row for it, closing the Short
   * trade writes its result into the Long row.
   */
  lemma UpdateIgnoresSide(longRow: Row, shortRow: Row, result: string)
    requires PendingFor(longRow, "BTCUSDT", "Long") && PendingFor(shortRow, "BTCUSDT", "Short")
    ensures UpdatedRows([Header, longRow, shortRow], "BTCUSDT", result)
      == Some([Header, longRow[7 := result], shortRow])
  {
    var rows := [Header, longRow, shortRow];
    assert Inspectable(rows[1], "BTCUSDT") && Matches(rows[1], "BTCUSDT");
    assert FindPending(rows, "BTCUSDT", 1) == Found(1);
    assert rows[1 := rows[1][7 := result]] == [Header, longRow[7 := result], shortRow];
  }

  // ----- the shape every ledger written by the bot has -----

  /** A data row as `log_to_csv` writes it and `update_csv_result` keeps it. */
  predicate TradeShaped(row: Row)
  {
    && |row| == 8
    && Parse(row[3]).Some? && Parse(row[4]).Some? && Parse(row[5]).Some? && Parse(row[6]).Some?
    && row[7] in {"Pending", "TP", "SL"}
  }

  /** No file and no rows, or the header followed by trade rows. */
  predicate WellFormed(present: bool, rows: seq<Row>)
  {
    if present then |rows| >= 1 && rows[0] == Header && forall i | 1 <= i < |rows| :: TradeShaped(rows[i])
    else rows == []
  }

  lemma LogKeepsWellFormed(present: bool, rows: seq<Row>, date: string, intent: Intent,
                           qty: Price, tp: Price, sl: Price)
    requires WellFormed(present, rows)
    ensures WellFormed(true, Appended(present, rows, TradeRow(date, intent, qty, tp, sl)))
  {
    ParseShow(intent.entry);
    ParseShow(tp);
    ParseShow(sl);
    ParseShow(qty);
    PendingCellsShaped(date, SideLabel(intent.side), intent.symbol, Show(intent.entry), Show(tp), Show(sl), Show(qty));
    AppendShaped(present, rows, TradeRow(date, intent, qty, tp, sl));
  }

  lemma PendingCellsShaped(date: string, side: string, symbol: string, e: string, t: string, s: string, q: string)
    requires Parse(e).Some? && Parse(t).Some? && Parse(s).Some? && Parse(q).Some?
    ensures TradeShaped([date, side, symbol, e, t, s, q, "Pending"])
  {
  }

  lemma AppendShaped(present: bool, rows: seq<Row>, row: Row)
    requires WellFormed(present, rows) && TradeShaped(row)
    ensures WellFormed(true, Appended(present, rows, row))
  {
    var r := Appended(present, rows, row);
    assert forall i | 1 <= i < |r| - 1 :: r[i] == rows[i];
  }

  /** On a ledger the bot wrote, the update never raises, and writing TP or SL keeps its shape. */
  lemma UpdateKeepsWellFormed(rows: seq<Row>, symbol: string, s: Status)
    requires WellFormed(true, rows) && s != Pending
    ensures UpdatedRows(rows, symbol, Label(s)).Some?
    ensures WellFormed(true, UpdatedRows(rows, symbol, Label(s)).value)
  {
  }
}
