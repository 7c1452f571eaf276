/**
 * `monitor_trade`: poll the price until it crosses the take-profit or the
 * stop-loss, then write the result into the ledger.  The price feed is a
 * finite sequence of samples, one per poll.
 */
module Monitor {
  import opened Options
  import opened Decimal
  import opened Signal
  import opened Rows
  import opened Ledger

  /**
   * What one price sample means for an open trade.  Long: TP at or above the
   * take-profit, else SL at or below the stop-loss.  Short: mirrored.  The
   * take-profit test comes first.
   */
  function Decide(side: Side, price: Price, tp: Price, sl: Price): Status
  {
    match side
    case Long => if price >= tp then TP else if price <= sl then SL else Pending
    case Short => if price <= tp then TP else if price >= sl then SL else Pending
  }

  /** A Long trade with its stop below its target stays open exactly while the price is between them. */
  lemma LongPendingBetween(price: Price, tp: Price, sl: Price)
    requires sl < tp
    ensures Decide(Long, price, tp, sl) == Pending <==> sl < price < tp
    ensures Decide(Long, price, tp, sl) == TP <==> tp <= price
    ensures Decide(Long, price, tp, sl) == SL <==> price <= sl
  {
  }

  /** A Short trade with its target below its stop stays open exactly while the price is between them. */
  lemma ShortPendingBetween(price: Price, tp: Price, sl: Price)
    requires tp < sl
    ensures Decide(Short, price, tp, sl) == Pending <==> tp < price < sl
    ensures Decide(Short, price, tp, sl) == TP <==> price <= tp
    ensures Decide(Short, price, tp, sl) == SL <==> sl <= price
  {
  }

  /** The Short rule is the Long rule on negated prices. */
  lemma DecideMirror(price: Price, tp: Price, sl: Price)
    ensures Decide(Short, price, tp, sl) == Decide(Long, -price, -tp, -sl)
  {
  }

  /** The poll at which the monitor stops, and what it saw. */
  datatype Hit = Hit(at: nat, status: Status)

  /** The first sample from `from` on that is not Pending, if any. */
  function FirstCross(side: Side, prices: seq<Price>, tp: Price, sl: Price, from: nat): (r: Option<Hit>)
    requires from <= |prices|
    ensures r.Some? ==>
      && from <= r.value.at < |prices|
      && r.value.status == Decide(side, prices[r.value.at], tp, sl)
      && r.value.status != Pending
      && forall j | from <= j < r.value.at :: Decide(side, prices[j], tp, sl) == Pending
    ensures r.None? ==> forall j | from <= j < |prices| :: Decide(side, prices[j], tp, sl) == Pending
    decreases |prices| - from
  {
    if from == |prices| then None
    else if Decide(side, prices[from], tp, sl) != Pending then Some(Hit(from, Decide(side, prices[from], tp, sl)))
    else FirstCross(side, prices, tp, sl, from + 1)
  }

  /** The ledger after the monitor: unchanged without a hit or when the update raises. */
  function Closed(present: bool, rows: seq<Row>, symbol: string, hit: Option<Hit>): seq<Row>
  {
    if hit.None? || !present then rows
    else
      match UpdatedRows(rows, symbol, Label(hit.value.status))
      case Some(r) => r
      case None => rows
  }

  /**
   * `monitor_trade(data, tp, sl)` over the samples `prices`: at the first
   * sample that is not Pending it calls `update_csv_result` with TP or SL and
   * stops.  `written` says whether that call completed.  With no such sample
   * the trade is still open when the samples run out.
   */
  method MonitorTrade(log: TradeLog, intent: Intent, tp: Price, sl: Price, prices: seq<Price>)
      returns (hit: Option<Hit>, written: bool)
    modifies log
    ensures hit == FirstCross(intent.side, prices, tp, sl, 0)
    ensures log.present == old(log.present)
    ensures written <==> hit.Some? && old(log.present)
                         && UpdatedRows(old(log.rows), intent.symbol, Label(hit.value.status)).Some?
    ensures log.rows == Closed(old(log.present), old(log.rows), intent.symbol, hit)
    ensures old(log.Valid()) ==> log.Valid() && (hit.Some? && log.present ==> written)
  {
    var i := 0;
    while i < |prices|
      invariant 0 <= i <= |prices|
      invariant FirstCross(intent.side, prices, tp, sl, 0) == FirstCross(intent.side, prices, tp, sl, i)
      invariant log.present == old(log.present) && log.rows == old(log.rows)
    {
      var status := Decide(intent.side, prices[i], tp, sl);
      if status != Pending {
        hit := Some(Hit(i, status));
        written := log.UpdateCsvResult(intent.symbol, Label(status));
        return;
      }
      i := i + 1;
    }
    hit, written := None, false;
  }

  /** Long, TP 110, SL 90, samples 95, 108, 111: TP at the third poll. */
  lemma LongTakeProfitExample()
    ensures FirstCross(Long, [95 * Scale, 108 * Scale, 111 * Scale], 110 * Scale, 90 * Scale, 0)
      == Some(Hit(2, TP))
  {
    var prices := [95 * Scale, 108 * Scale, 111 * Scale];
    assert FirstCross(Long, prices, 110 * Scale, 90 * Scale, 2) == Some(Hit(2, TP));
    assert FirstCross(Long, prices, 110 * Scale, 90 * Scale, 1) == Some(Hit(2, TP));
  }

  /** Long, TP 110, SL 90, samples 95, 89: SL at the second poll. */
  lemma LongStopLossExample()
    ensures FirstCross(Long, [95 * Scale, 89 * Scale], 110 * Scale, 90 * Scale, 0) == Some(Hit(1, SL))
  {
  }

  /** A sample past both thresholds (possible only when tp <= sl for Long) counts as TP. */
  lemma TakeProfitTestedFirst(side: Side, price: Price, tp: Price, sl: Price)
    requires side == Long ==> price >= tp && price <= sl
    requires side == Short ==> price <= tp && price >= sl
    ensures Decide(side, price, tp, sl) == TP
  {
  }
}
