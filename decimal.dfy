/**
 * Numbers in the trade ledger.  The bot keeps prices and quantities as Python
 * floats and writes them to the CSV file with `str(...)`, reading them back
 * with `float(...)`.  Here a price is a fixed-point number with eight decimal
 * places (an integer count of 10^-8), `Show` writes it as decimal text and
 * `Parse` reads such text back.  Python's `round(x, n)` is modelled on exact
 * reals, rounding to the nearest multiple of 10^-n with ties to even.
 */
module Decimal {
  import opened Options

  /** A price or a quantity, counted in units of 10^-8. */
  type Price = int

  /** The distance between two prices. */
  function Abs(x: int): int { if x < 0 then -x else x }

  /** Decimal places kept by a Price. */
  const Places: nat := 8
  /** Units per whole coin or USDT: 10^Places. */
  const Scale: nat := 100_000_000

  function Pow10(k: nat): (p: nat)
    ensures p >= 1
  {
    if k == 0 then 1 else 10 * Pow10(k - 1)
  }

  lemma ScaleIsPow10()
    ensures Scale == Pow10(Places)
  {
    assert Pow10(4) == 10_000;
    assert Pow10(8) == 10 * 10 * 10 * 10 * Pow10(4);
  }

  predicate IsDigit(c: char) { '0' <= c <= '9' }

  predicate AllDigits(s: string) { forall i | 0 <= i < |s| :: IsDigit(s[i]) }

  function DigitChar(d: nat): (c: char)
    requires d < 10
    ensures IsDigit(c) && (c as int) - 48 == d
  {
    (48 + d) as char
  }

  /** The value of a string of decimal digits (most significant first). */
  function DigitsValue(s: string): nat
    requires AllDigits(s)
  {
    if s == [] then 0 else DigitsValue(s[..|s| - 1]) * 10 + ((s[|s| - 1] as int) - 48)
  }

  /** The decimal digits of `n`, without leading zeros; reading them back gives `n`. */
  function NatDigits(n: nat): (s: string)
    ensures |s| >= 1 && AllDigits(s) && DigitsValue(s) == n
  {
    if n < 10 then [DigitChar(n)]
    else
      var s := NatDigits(n / 10) + [DigitChar(n % 10)];
      assert s[..|s| - 1] == NatDigits(n / 10);
      s
  }

  lemma {:induction false} NatDigitsLength(n: nat, k: nat)
    requires 1 <= k && n < Pow10(k)
    ensures |NatDigits(n)| <= k
    decreases k
  {
    if n >= 10 {
      NatDigitsLength(n / 10, k - 1);
    }
  }

  /** A leading zero does not change the value of a digit string. */
  lemma {:induction false} LeadingZero(s: string)
    requires AllDigits(s)
    ensures AllDigits(['0'] + s) && DigitsValue(['0'] + s) == DigitsValue(s)
    decreases |s|
  {
    if s != [] {
      var t := ['0'] + s;
      assert t[..|t| - 1] == ['0'] + s[..|s| - 1];
      LeadingZero(s[..|s| - 1]);
    }
  }

  /** `s` with zeros in front, up to `width` digits; the value is the same. */
  function PadDigits(s: string, width: nat): (r: string)
    requires AllDigits(s)
    ensures AllDigits(r) && DigitsValue(r) == DigitsValue(s)
    ensures |r| == if |s| >= width then |s| else width
    decreases width - |s|
  {
    LeadingZero(s);
    if |s| >= width then s else PadDigits(['0'] + s, width)
  }

  /** The text the model writes into a ledger cell in place of `str(p)`: sign, whole part, '.', eight decimals. */
  function Show(p: Price): string
  {
    if p < 0 then "-" + ShowMagnitude(-p) else ShowMagnitude(p)
  }

  /** Whole part, '.', and the fraction padded to Places digits. */
  function ShowMagnitude(m: nat): string
  {
    NatDigits(m / Scale) + "." + PadDigits(NatDigits(m % Scale), Places)
  }

  /** `float(s)` on a ledger cell: None for text not in the form `Show` writes. */
  function Parse(s: string): Option<Price>
  {
    if |s| > 0 && s[0] == '-' then
      match ParseUnsigned(s[1..])
      case Some(v) => Some(-(v as int))
      case None => None
    else ParseUnsigned(s)
  }

  /** The number with whole part `whole` and `Places` decimals `frac`. */
  function Fixed(whole: nat, frac: nat): nat
  {
    whole * Scale + frac
  }

  /** The value of `s` read digit by digit, or None at the first character that is not a digit. */
  function ReadDigits(s: string): Option<nat>
  {
    if s == [] then Some(0)
    else if !IsDigit(s[|s| - 1]) then None
    else
      match ReadDigits(s[..|s| - 1])
      case None => None
      case Some(v) => Some(v * 10 + ((s[|s| - 1] as int) - 48))
  }

  /** Reading a string of digits gives its value. */
  lemma {:induction false} ReadDigitsValue(s: string)
    requires AllDigits(s)
    ensures ReadDigits(s) == Some(DigitsValue(s))
    decreases |s|
  {
    if s != [] {
      ReadDigitsValue(s[..|s| - 1]);
    }
  }

  /** Digits, '.', and exactly Places digits. */
  function ParseUnsigned(body: string): Option<nat>
  {
    if |body| < Places + 2 || body[|body| - Places - 1] != '.' then None
    else
      var dot := |body| - Places - 1;
      var whole, frac := ReadDigits(body[..dot]), ReadDigits(body[dot + 1..]);
      if whole.Some? && frac.Some? then Some(Fixed(whole.value, frac.value)) else None
  }

  lemma ParseUnsignedParts(w: string, f: string)
    requires |w| >= 1 && AllDigits(w) && AllDigits(f) && |f| == Places
    ensures ParseUnsigned(w + "." + f) == Some(Fixed(DigitsValue(w), DigitsValue(f)))
  {
    var body := w + "." + f;
    assert |body| == |w| + 1 + Places;
    var dot := |body| - Places - 1;
    assert dot == |w| && body[dot] == '.';
    assert body[..dot] == w;
    assert body[dot + 1..] == f;
    ReadDigitsValue(w);
    ReadDigitsValue(f);
  }

  /** The unsigned text reads back as the same magnitude, and starts with a digit. */
  lemma ParseMagnitude(m: nat)
    ensures ParseUnsigned(ShowMagnitude(m)) == Some(m)
    ensures |ShowMagnitude(m)| > 0 && IsDigit(ShowMagnitude(m)[0])
  {
    ScaleIsPow10();
    NatDigitsLength(m % Scale, Places);
    var w := NatDigits(m / Scale);
    var f := PadDigits(NatDigits(m % Scale), Places);
    assert Fixed(DigitsValue(w), DigitsValue(f)) == m;
    ParseUnsignedParts(w, f);
    assert ShowMagnitude(m)[0] == w[0];
  }

  /** A digit-led unsigned body reads back with and without a leading '-'. */
  lemma ParseSigned(body: string, v: nat)
    requires ParseUnsigned(body) == Some(v) && |body| > 0 && IsDigit(body[0])
    ensures Parse(body) == Some(v) && Parse("-" + body) == Some(-(v as int))
  {
    assert ("-" + body)[1..] == body;
  }

  /** What is written to a cell is read back unchanged. */
  lemma ParseShow(p: Price)
    ensures Parse(Show(p)) == Some(p)
  {
    var m := if p < 0 then -p else p;
    ParseMagnitude(m);
    ParseSigned(ShowMagnitude(m), m);
  }

  /** A written number holds only digits, '-' and '.': no letter, and no ',' that would split the cell. */
  lemma ShowAlphabet(p: Price)
    ensures forall c | c in Show(p) :: c == '-' || c == '.' || IsDigit(c)
  {
    var m := if p < 0 then -p else p;
    var w, f := NatDigits(m / Scale), PadDigits(NatDigits(m % Scale), Places);
    assert ShowMagnitude(m) == w + "." + f;
    forall c | c in ShowMagnitude(m)
      ensures c == '.' || IsDigit(c)
    {
      if c in w {
        var i :| 0 <= i < |w| && w[i] == c;
      } else if c in f {
        var i :| 0 <= i < |f| && f[i] == c;
      }
    }
    assert Show(p) == if p < 0 then "-" + ShowMagnitude(m) else ShowMagnitude(m);
    forall c | c in Show(p)
      ensures c == '-' || c == '.' || IsDigit(c)
    {
      if p < 0 && c != '-' {
        assert c in ShowMagnitude(m);
      }
    }
  }

  /**
   * Python's `round` to a whole number of units: the nearest integer, ties
   * going to the even neighbour.
   */
  function RoundHalfEven(y: real): (r: int)
    ensures y - 0.5 <= r as real <= y + 0.5
    ensures (r as real - y == 0.5 || y - r as real == 0.5) ==> r % 2 == 0
  {
    var f := y.Floor;
    var d := y - f as real;
    if d < 0.5 then f
    else if d > 0.5 then f + 1
    else if f % 2 == 0 then f
    else f + 1
  }

  /** The two properties of RoundHalfEven determine it: no other integer has both. */
  lemma RoundHalfEvenUnique(y: real, r: int)
    requires y - 0.5 <= r as real <= y + 0.5
    requires (r as real - y == 0.5 || y - r as real == 0.5) ==> r % 2 == 0
    ensures r == RoundHalfEven(y)
  {
  }

  /**
   * Python's `round(x, places)`, exactly, on a real, with `k` = 10^places: a
   * multiple of 1/k within half a step of `x`, the even multiple on a tie.
   */
  function RoundTo(x: real, k: real): (r: real)
    requires k >= 1.0
    ensures r * k == RoundHalfEven(x * k) as real
    ensures (r * k).Floor == RoundHalfEven(x * k)
    ensures (r * k).Floor as real == r * k
    ensures x * k - 0.5 <= r * k <= x * k + 0.5
    ensures (r * k - x * k == 0.5 || x * k - r * k == 0.5) ==> (r * k).Floor % 2 == 0
    ensures x - 0.5 / k <= r <= x + 0.5 / k
  {
    ScaledBack(x, k, RoundHalfEven(x * k) as real);
    RoundHalfEven(x * k) as real / k
  }

  /**
   * Those properties leave one value: a multiple of 1/k within half a step
   * of `x`, even on a tie, is `RoundTo(x, k)`.
   */
  lemma RoundToUnique(x: real, k: real, r: real)
    requires k >= 1.0
    requires (r * k).Floor as real == r * k
    requires x * k - 0.5 <= r * k <= x * k + 0.5
    requires (r * k - x * k == 0.5 || x * k - r * k == 0.5) ==> (r * k).Floor % 2 == 0
    ensures r == RoundTo(x, k)
  {
    RoundHalfEvenUnique(x * k, (r * k).Floor);
    Cancel(r, RoundTo(x, k), k);
  }

  /** Multiplication by a positive factor is injective. */
  lemma Cancel(a: real, b: real, k: real)
    requires k >= 1.0 && a * k == b * k
    ensures a == b
  {
    assert (a - b) * k == 0.0;
  }

  /** Dividing by `k` a value within 1/2 of `x * k` gives a value within 1/(2k) of `x`. */
  lemma ScaledBack(x: real, k: real, r: real)
    requires k >= 1.0 && x * k - 0.5 <= r <= x * k + 0.5
    ensures x - 0.5 / k <= r / k <= x + 0.5 / k
  {
    assert r / k - x == (r - x * k) / k;
    assert -0.5 / k <= (r - x * k) / k <= 0.5 / k;
  }

  /** Rounding keeps a value inside a range whose ends are whole numbers. */
  lemma RoundHalfEvenWithin(y: real, hi: int)
    requires 0.0 <= y <= hi as real
    ensures 0 <= RoundHalfEven(y) <= hi
  {
  }
}
