/**
 * Risk sizing in `execute_trade` and `calculate_position_size`: the take-profit
 * is one of the signal's targets, the stop-loss is that target reflected
 * across the entry price, and the quantity spends a fixed amount of capital
 * at risk over the entry-to-stop distance, rounded to three decimals.
 */
module Risk {
  import opened Options
  import opened Decimal
  import opened Signal

  /** The bot's sizing settings: CAPITAL_USDT, RISK_PER_TRADE, TARGET_INDEX. */
  datatype Config = Config(capital: real, riskPct: real, targetIndex: int)

  /** The three numbers a trade is opened with. */
  datatype Bracket = Bracket(tp: Price, sl: Price, qty: Price)


  /**
   * `targets[TARGET_INDEX - 1]` with Python's list indexing: a negative index
   * counts from the end, and an index outside the list is an IndexError (None).
   * The setting is not range-checked anywhere, so 0 selects the last target.
   */
  function TakeProfit(targets: seq<Price>, targetIndex: int): (tp: Option<Price>)
    ensures tp.Some? <==> -|targets| < targetIndex <= |targets|
    ensures tp.Some? ==> tp.value in targets
  {
    var i := targetIndex - 1;
    if 0 <= i < |targets| then Some(targets[i])
    else if -|targets| <= i < 0 then Some(targets[|targets| + i])
    else None
  }

  /** With TARGET_INDEX between 1 and the number of targets, it selects that target (1-based). */
  lemma TakeProfitInRange(targets: seq<Price>, targetIndex: int)
    requires 1 <= targetIndex <= |targets|
    ensures TakeProfit(targets, targetIndex) == Some(targets[targetIndex - 1])
  {
  }

  /** TARGET_INDEX 0 is accepted and silently selects the last target. */
  lemma TakeProfitZeroIsLast(targets: seq<Price>)
    requires |targets| > 0
    ensures TakeProfit(targets, 0) == Some(targets[|targets| - 1])
  {
  }

  /**
   * The stop-loss of `execute_trade`: `entry - (tp - entry)` for Long,
   * `entry + (entry - tp)` otherwise.  Both are tp reflected across entry.
   */
  function StopLoss(side: Side, entry: Price, tp: Price): (sl: Price)
    ensures entry - sl == tp - entry
    ensures Abs(entry - sl) == Abs(tp - entry)
    ensures tp > entry ==> sl < entry < tp
    ensures tp < entry ==> tp < entry < sl
  {
    if side == Long then entry - (tp - entry) else entry + (entry - tp)
  }

  /** The size in coins that risks exactly capital * riskPct between entry and stop. */
  ghost function ExactSize(entry: Price, sl: Price, capital: real, riskPct: real): real
    requires entry != sl
  {
    capital * riskPct / (Abs(entry - sl) as real / Scale as real)
  }

  /** Units of 10^-8 in one thousandth: quantities are whole thousandths. */
  const Milli: nat := 100_000

  /**
   * `calculate_position_size`: zero when entry equals the stop, otherwise the
   * exact size rounded to the nearest thousandth (ties to even).
   */
  function PositionSize(entry: Price, sl: Price, capital: real, riskPct: real): (qty: Price)
    ensures entry == sl ==> qty == 0
    ensures entry != sl ==> qty % Milli == 0
    ensures entry != sl ==>
      ExactSize(entry, sl, capital, riskPct) - 0.0005 <= qty as real / Scale as real
                                                       <= ExactSize(entry, sl, capital, riskPct) + 0.0005
  {
    var risk := capital * riskPct;
    var distance := Abs(entry - sl);
    if distance == 0 then 0
    else
      var coins := risk / (distance as real / Scale as real);
      var k := RoundHalfEven(coins * 1000.0);
      assert (k * Milli) as real / Scale as real == k as real / 1000.0;
      k * Milli
  }

  /** Capital and risk that are not negative never give a negative quantity. */
  lemma {:induction false} PositionSizeNonNegative(entry: Price, sl: Price, capital: real, riskPct: real)
    requires capital >= 0.0 && riskPct >= 0.0
    ensures PositionSize(entry, sl, capital, riskPct) >= 0
  {
    if entry != sl {
      var d := Abs(entry - sl) as real / Scale as real;
      assert d > 0.0;
      assert capital * riskPct >= 0.0;
      assert capital * riskPct / d >= 0.0;
    }
  }

  /** The three bracket numbers for an intent (`execute_trade` lines computing tp, sl, qty). */
  function Size(intent: Intent, cfg: Config): (b: Option<Bracket>)
    ensures b.Some? <==> TakeProfit(intent.targets, cfg.targetIndex).Some?
    ensures b.Some? ==> b.value.tp in intent.targets
    ensures b.Some? ==> b.value.tp == TakeProfit(intent.targets, cfg.targetIndex).value
    ensures 1 <= cfg.targetIndex <= |intent.targets| ==>
      b.Some? && b.value.tp == intent.targets[cfg.targetIndex - 1]
    ensures b.Some? ==> intent.entry - b.value.sl == b.value.tp - intent.entry
    ensures b.Some? && b.value.tp > intent.entry ==> b.value.sl < intent.entry
    ensures b.Some? && b.value.tp < intent.entry ==> b.value.sl > intent.entry
    ensures b.Some? && intent.entry == b.value.sl ==> b.value.qty == 0
    ensures b.Some? && intent.entry != b.value.sl ==>
      && b.value.qty % Milli == 0
      && ExactSize(intent.entry, b.value.sl, cfg.capital, cfg.riskPct) - 0.0005 <= b.value.qty as real / Scale as real
      && b.value.qty as real / Scale as real <= ExactSize(intent.entry, b.value.sl, cfg.capital, cfg.riskPct) + 0.0005
  {
    match TakeProfit(intent.targets, cfg.targetIndex)
    case None => None
    case Some(tp) =>
      var sl := StopLoss(intent.side, intent.entry, tp);
      Some(Bracket(tp, sl, PositionSize(intent.entry, sl, cfg.capital, cfg.riskPct)))
  }

  /**
   * Entry 100, first target 110, TARGET_INDEX 1, Long, capital 1000, risk 0.01:
   * take-profit 110, stop-loss 90, quantity 1.0 (10 USDT at risk over a 10 USDT distance).
   */
  lemma SizeExample(targets: seq<Price>)
    requires |targets| >= 1 && targets[0] == 110 * Scale
    ensures Size(Intent(Long, "BTCUSDT", 100 * Scale, targets), Config(1000.0, 0.01, 1))
      == Some(Bracket(110 * Scale, 90 * Scale, 1 * Scale))
  {
    var coins := 1000.0 * 0.01 / ((10 * Scale) as real / Scale as real);
    assert coins == 10.0 / 10.0 == 1.0;
    assert RoundHalfEven(coins * 1000.0) == 1000;
  }
}
