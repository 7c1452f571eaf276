/**
 * Signal parsing (`parse_signal`): a Telegram message becomes either no signal
 * or a trade intent {type, symbol, entry, targets}.  The direction marker is
 * looked for first; the bracket-style regular expression itself is a
 * parameter, `extract`, standing for `re.search(...).groupdict()`, and the
 * model covers what is done with the captured fields.
 */
module Signal {
  import opened Options
  import opened Text
  import opened Decimal

  datatype Side = Long | Short

  /** The text of the `type` field, as stored in the ledger's Type column. */
  function SideLabel(side: Side): string
  {
    match side
    case Long => "Long"
    case Short => "Short"
  }

  /** Green circle, space, "Long". */
  const LongMarker: string := "\U{1F7E2} Long"
  /** Red circle, space, "Short". */
  const ShortMarker: string := "\U{1F534} Short"

  /** One captured "n) price" line of the Targets block; the fifth is the "unlimited" sentinel. */
  datatype Target = Level(price: Price) | Unlimited

  /** The named groups the pattern captured; a group that did not match is None. */
  datatype Extraction = Extraction(symbol: Option<string>, entry: Option<Price>, targets: seq<Option<Target>>)

  /** A parsed signal: direction, symbol without '/', entry price, the four priced targets. */
  datatype Intent = Intent(side: Side, symbol: string, entry: Price, targets: seq<Price>)

  /** The direction marker test; Long is tested first, so a message with both markers is Long. */
  function Direction(text: string): Option<Side>
  {
    if Contains(text, LongMarker) then Some(Long)
    else if Contains(text, ShortMarker) then Some(Short)
    else None
  }

  /** `str.replace('/', '')`: the symbol with every slash removed and all else kept in order. */
  function StripSlashes(raw: string): (s: string)
    ensures '/' !in s
    ensures |s| <= |raw|
    ensures '/' !in raw ==> s == raw
  {
    if raw == [] then []
    else (if raw[0] == '/' then [] else [raw[0]]) + StripSlashes(raw[1..])
  }

  /** Stripping works piece by piece, so it keeps every other character in place. */
  lemma {:induction false} StripSlashesAppend(a: string, b: string)
    ensures StripSlashes(a + b) == StripSlashes(a) + StripSlashes(b)
    decreases |a|
  {
    if a != [] {
      assert (a + b)[1..] == a[1..] + b;
      StripSlashesAppend(a[1..], b);
    } else {
      assert a + b == b;
    }
  }

  /** Every field the pattern requires was captured and the fifth target is the sentinel. */
  predicate Complete(x: Extraction)
  {
    && x.symbol.Some?
    && x.entry.Some?
    && |x.targets| == 5
    && (forall i | 0 <= i < 4 :: x.targets[i].Some? && x.targets[i].value.Level?)
    && x.targets[4] == Some(Unlimited)
  }

  /** The post-processing of a match: strip the symbol, keep tp1..tp4, drop the sentinel. */
  function Assemble(side: Side, x: Extraction): Option<Intent>
  {
    if Complete(x) then
      Some(Intent(side, StripSlashes(x.symbol.value), x.entry.value,
                  [x.targets[0].value.price, x.targets[1].value.price,
                   x.targets[2].value.price, x.targets[3].value.price]))
    else None
  }

  /** `parse_signal(text)`, with the regular-expression engine given as `extract`. */
  function ParseSignal(text: string, extract: string -> Extraction): (r: Option<Intent>)
    ensures r.Some? <==> Direction(text).Some? && Complete(extract(text))
    ensures r.Some? ==>
      && r.value.side == Direction(text).value
      && r.value.symbol == StripSlashes(extract(text).symbol.value)
      && '/' !in r.value.symbol
      && r.value.entry == extract(text).entry.value
      && |r.value.targets| == 4
      && forall i | 0 <= i < 4 :: extract(text).targets[i] == Some(Level(r.value.targets[i]))
  {
    match Direction(text)
    case None => None
    case Some(side) => Assemble(side, extract(text))
  }

  /** Without either marker nothing is parsed, whatever the pattern would capture. */
  lemma NoMarkerNoSignal(text: string, extract: string -> Extraction)
    requires !Contains(text, LongMarker) && !Contains(text, ShortMarker)
    ensures ParseSignal(text, extract) == None
  {
  }

  /** A message carrying both markers is read as Long. */
  lemma BothMarkersMeanLong(text: string, extract: string -> Extraction)
    requires Contains(text, LongMarker) && Contains(text, ShortMarker)
    requires Complete(extract(text))
    ensures ParseSignal(text, extract).Some? && ParseSignal(text, extract).value.side == Long
  {
  }

  /**
   * A Short message whose match is complete, with a pair written "BASE/QUOTE"
   * in the Name field, gives a Short intent on "BASEQUOTE" with tp1..tp4.
   */
  lemma ShortSignalExample(body: string, extract: string -> Extraction, base: string, quote: string,
                           entry: Price, t1: Price, t2: Price, t3: Price, t4: Price)
    requires '/' !in base && '/' !in quote
    requires !Contains(ShortMarker + body, LongMarker)
    requires extract(ShortMarker + body) == Extraction(Some(base + "/" + quote), Some(entry),
      [Some(Level(t1)), Some(Level(t2)), Some(Level(t3)), Some(Level(t4)), Some(Unlimited)])
    ensures ParseSignal(ShortMarker + body, extract)
      == Some(Intent(Short, base + quote, entry, [t1, t2, t3, t4]))
  {
    MarkerFound(ShortMarker, body);
    assert Direction(ShortMarker + body) == Some(Short);
    StripPair(base, quote);
  }

  /** A message that starts with a marker contains it. */
  lemma MarkerFound(marker: string, body: string)
    ensures Contains(marker + body, marker)
  {
    ContainsSelf(marker);
    ContainsExtendRight(marker, body, marker);
  }

  /** A pair written "BASE/QUOTE" becomes "BASEQUOTE". */
  lemma StripPair(base: string, quote: string)
    requires '/' !in base && '/' !in quote
    ensures StripSlashes(base + "/" + quote) == base + quote
  {
    assert base + "/" + quote == base + ("/" + quote);
    DropLeadingSlash(quote);
    StripSlashesAppend(base, "/" + quote);
  }

  lemma DropLeadingSlash(quote: string)
    requires '/' !in quote
    ensures StripSlashes("/" + quote) == quote
  {
    assert ("/" + quote)[1..] == quote;
  }

  /**
   * A group that did not match (a missing symbol, entry or target, a target
   * that is not a number, no trailing sentinel) yields no signal, never a
   * partial one.
   */
  lemma MissingFieldNoSignal(text: string, extract: string -> Extraction)
    requires !Complete(extract(text))
    ensures ParseSignal(text, extract) == None
  {
  }
}
