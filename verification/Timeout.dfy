/** Deadline propagation: the remaining time goes out in the GRPC-Timeout header and
    comes back as the timeout of the server's context. */
module Timeout {
  import opened Prelude
  import opened Framing
  import Decimal

  /** Durations are 64-bit counts of nanoseconds. */
  const MAX_INT64 := 0x7FFF_FFFF_FFFF_FFFF
  const MIN_INT64 := -0x8000_0000_0000_0000
  type Duration = x: int | MIN_INT64 <= x <= MAX_INT64

  const MICROSECOND := 1_000
  const MILLISECOND := 1_000_000
  const SECOND := 1_000_000_000

  /** The low 64 bits as a signed number. */
  function Wrap(x: int): Duration {
    var u := x % 0x1_0000_0000_0000_0000;
    if u > MAX_INT64 then u - 0x1_0000_0000_0000_0000 else u
  }

  /** Division that truncates toward zero. */
  function Quot(a: int, b: int): int
    requires b > 0
  {
    if a < 0 then -(-a / b) else a / b
  }

  /** Whole milliseconds, at least one. */
  function Millis(d: Duration): int {
    var millis := Quot(d, MILLISECOND);
    if millis <= 0 then 1 else millis
  }

  /** The header for the time remaining until the deadline. */
  function Header(remaining: Duration): Bytes {
    Decimal.Print(Millis(remaining)) + ['m' as int]
  }

  function Unit(suffix: Byte): int {
    if suffix == 'H' as int then 3600 * SECOND
    else if suffix == 'M' as int then 60 * SECOND
    else if suffix == 'S' as int then SECOND
    else if suffix == 'm' as int then MILLISECOND
    else if suffix == 'u' as int then MICROSECOND
    else if suffix == 'n' as int then 1
    else 0
  }

  /** The timeout a server derives from a header; None if it sets none. */
  function Parse(header: Bytes): Option<Duration> {
    if header == [] then None
    else
      var n := |header| - 1;
      var v := Decimal.ParseInt(header[..n], MIN_INT64, MAX_INT64);
      var unit := Unit(header[n]);
      if v.None? || unit == 0 then None else Some(Wrap(v.value * unit))
  }

  lemma WrapSmall(x: int)
    requires MIN_INT64 <= x <= MAX_INT64
    ensures Wrap(x) == x
  {
  }

  lemma MillisBounds(d: Duration)
    ensures var t := Millis(d) * MILLISECOND;
            && 0 < t <= (if d > MILLISECOND then d else MILLISECOND)
            && (d >= MILLISECOND ==> d - t < MILLISECOND)
            && t % MILLISECOND == 0
  {
  }

  lemma ParsedIs(d: Duration)
    ensures Parse(Header(d)) == Some(Wrap(Millis(d) * MILLISECOND))
  {
    var header := Header(d);
    MillisBounds(d);
    assert header[..|header| - 1] == Decimal.Print(Millis(d));
    Decimal.RoundTrip(Millis(d), MIN_INT64, MAX_INT64);
    hide Decimal.ParseInt, Decimal.Print, Wrap, Millis;
  }

  /** For every remaining time: the timeout is positive, with no overflow; it is at
      most the remaining time (or one millisecond), and less than a millisecond
      below it. */
  lemma Propagates(d: Duration)
    ensures var t := Parse(Header(d));
            && t.Some? && t.value > 0
            && t.value <= (if d > MILLISECOND then d else MILLISECOND)
            && (d >= MILLISECOND ==> d - t.value < MILLISECOND)
            && t.value % MILLISECOND == 0
  {
    MillisBounds(d);
    ParsedIs(d);
    hide Parse, Header, Wrap, Millis;
    WrapSmall(Millis(d) * MILLISECOND);
  }

  /** A timeout that is passed on without delay is not shortened any further. */
  lemma PassedOn(d: Duration)
    ensures Parse(Header(d)).Some?
    ensures Parse(Header(Parse(Header(d)).value)) == Parse(Header(d))
  {
    hide Parse, Header;
    Propagates(d);
    var t := Parse(Header(d)).value;
    Propagates(t);
  }

  /** The nanoseconds of the units in the protocol. */
  predicate UnitIs(suffix: char, ns: int) {
    || (suffix == 'H' && ns == 3600000000000) || (suffix == 'M' && ns == 60000000000)
    || (suffix == 'S' && ns == 1000000000) || (suffix == 'm' && ns == 1000000)
    || (suffix == 'u' && ns == 1000) || (suffix == 'n' && ns == 1)
  }

  /** What a server makes of a number and a unit: their product in nanoseconds, of
      which 64 bits are kept; and nothing of any other unit. */
  lemma UnitsRead(n: int, suffix: char, ns: int)
    requires MIN_INT64 <= n <= MAX_INT64 && suffix as int < 256
    ensures var t := Parse(Decimal.Print(n) + [suffix as int]);
            && (UnitIs(suffix, ns) ==> t.Some? && (t.value - n * ns) % 18446744073709551616 == 0)
            && (UnitIs(suffix, ns) && MIN_INT64 <= n * ns <= MAX_INT64 ==> t == Some(n * ns))
            && (suffix !in "HMSmun" ==> t == None)
  {
    var header := Decimal.Print(n) + [suffix as int];
    assert header[..|header| - 1] == Decimal.Print(n);
    Decimal.RoundTrip(n, MIN_INT64, MAX_INT64);
    WrapCongruent(n * ns);
    hide Decimal.ParseInt, Decimal.Print, Wrap;
    if MIN_INT64 <= n * ns <= MAX_INT64 {
      WrapSmall(n * ns);
    }
  }

  lemma WrapCongruent(x: int)
    ensures (Wrap(x) - x) % 0x1_0000_0000_0000_0000 == 0
  {
    var q := x / 0x1_0000_0000_0000_0000;
    assert x == q * 0x1_0000_0000_0000_0000 + x % 0x1_0000_0000_0000_0000;
    assert Wrap(x) - x == -q * 0x1_0000_0000_0000_0000 || Wrap(x) - x == (-q - 1) * 0x1_0000_0000_0000_0000;
  }
}
