/** Decimal integers as text, printed as by %d and parsed as by strconv.ParseInt
    in base 10. */
module Decimal {
  import opened Prelude
  import opened Framing

  const ZERO: Byte := 48
  const MINUS: Byte := 45
  const PLUS: Byte := 43

  predicate IsDigit(c: Byte) {
    ZERO <= c <= ZERO + 9
  }

  function PrintNat(n: nat): (r: Bytes)
    ensures r != [] && forall i :: 0 <= i < |r| ==> IsDigit(r[i])
  {
    if n < 10 then [ZERO + n] else PrintNat(n / 10) + [ZERO + n % 10]
  }

  function Print(n: int): Bytes {
    if n < 0 then [MINUS] + PrintNat(-n) else PrintNat(n)
  }

  function ParseNat(b: Bytes): (r: Option<nat>) {
    if b == [] then Some(0)
    else
      var n := |b| - 1;
      var front: Option<nat> := ParseNat(b[..n]);
      if front.None? || !IsDigit(b[n]) then None else Some(front.value * 10 + (b[n] - ZERO))
  }

  /** An optional sign, at least one digit, and a value that fits. */
  function ParseInt(b: Bytes, min: int, max: int): (r: Option<int>)
    ensures r.Some? ==> min <= r.value <= max
  {
    var signed := b != [] && (b[0] == MINUS || b[0] == PLUS);
    var digits := if signed then b[1..] else b;
    var n := ParseNat(digits);
    if digits == [] || n.None? then None
    else
      var m: int := n.value;
      var v := if signed && b[0] == MINUS then -m else m;
      if min <= v <= max then Some(v) else None
  }

  lemma {:induction false} NatRoundTrip(n: nat)
    ensures ParseNat(PrintNat(n)) == Some(n)
  {
    var b := PrintNat(n);
    var k := |b| - 1;
    if n < 10 {
      assert b[..k] == [];
    } else {
      NatRoundTrip(n / 10);
      assert b[..k] == PrintNat(n / 10);
    }
  }

  /** Parsing undoes printing for every integer that fits. */
  lemma RoundTrip(n: int, min: int, max: int)
    requires min <= n <= max
    ensures ParseInt(Print(n), min, max) == Some(n)
  {
    NatRoundTrip(if n < 0 then -n else n);
    hide PrintNat, ParseNat;
    var b := Print(n);
    if n < 0 {
      assert b[1..] == PrintNat(-n);
    } else {
      assert IsDigit(b[0]);
    }
  }

  /** Exactly digits are parsed. */
  lemma {:induction false} ParsesExactlyWhen(b: Bytes)
    ensures ParseNat(b).Some? <==> forall c :: c in b ==> IsDigit(c)
  {
    if b != [] {
      var n := |b| - 1;
      ParsesExactlyWhen(b[..n]);
      assert b == b[..n] + [b[n]];
    }
  }

  /** And what is parsed prints as it was, but for zeros in front of it. */
  lemma {:induction false} ParsedPrints(b: Bytes)
    requires ParseNat(b).Some? && b != []
    ensures |b| == 1 || b[0] != ZERO ==> PrintNat(ParseNat(b).value) == b
    ensures b[0] == ZERO ==> ParseNat(b[1..]) == ParseNat(b)
    ensures b[0] != ZERO ==> ParseNat(b).value > 0
  {
    var n := |b| - 1;
    if n == 0 {
      assert b[..0] == [] && b[1..] == [];
    } else {
      ParsedPrints(b[..n]);
      assert b == b[..n] + [b[n]];
      assert b[1..][..n - 1] == b[..n][1..];
      assert b[..n][0] == b[0];
    }
  }

  /** A sign is optional; without digits after it there is no number. */
  lemma Signed(b: Bytes, digits: Bytes, min: int, max: int)
    requires forall c :: c in digits ==> IsDigit(c)
    requires b == digits || b == ['+' as int] + digits
    ensures ParseInt(b, min, max)
         == var n: int := ParseNat(digits).GetOr(0);
            if digits == [] || n < min || n > max then None else Some(n)
    ensures ParseInt(['-' as int] + digits, min, max)
         == var n: int := ParseNat(digits).GetOr(0);
            if digits == [] || -n < min || -n > max then None else Some(-n)
  {
    ParsesExactlyWhen(digits);
    var neg := ['-' as int] + digits;
    assert neg[1..] == digits;
    assert b != digits ==> b[1..] == digits;
    assert digits != [] ==> digits[0] in digits;
    hide ParseNat;
  }
}
