/** The URL-safe base64 alphabet (section 5 of RFC 4648), with and without
    padding, as binary metadata and error details are put into headers. */
module Base64 {
  import opened Prelude
  import opened Framing

  const PAD: Byte := 61
  const NEWLINES: set<Byte> := {10, 13}

  type Digit = x: int | 0 <= x < 64

  function Symbol(d: Digit): Byte {
    if d < 26 then 65 + d
    else if d < 52 then 71 + d
    else if d < 62 then d - 4
    else if d == 62 then 45
    else 95
  }

  /** The digit a byte stands for, or -1. */
  function ValueOf(c: Byte): (d: int)
    ensures -1 <= d < 64
  {
    if 65 <= c <= 90 then c - 65
    else if 97 <= c <= 122 then c - 71
    else if 48 <= c <= 57 then c + 4
    else if c == 45 then 62
    else if c == 95 then 63
    else -1
  }

  lemma SymbolRoundTrip(d: Digit)
    ensures ValueOf(Symbol(d)) == d && Symbol(d) != PAD && Symbol(d) !in NEWLINES
  {
  }

  /** The alphabet of section 5 of RFC 4648. */
  lemma AlphabetIs(d: Digit)
    ensures Symbol(d) == if d < 26 then 'A' as int + d
                         else if d < 52 then 'a' as int + (d - 26)
                         else if d < 62 then '0' as int + (d - 52)
                         else if d == 62 then '-' as int
                         else '_' as int
  {
  }

  predicate AreDigits(v: Bytes) {
    forall c :: c in v ==> ValueOf(c) >= 0
  }

  /** Three bytes as four symbols. */
  function Quad(a: Byte, b: Byte, c: Byte): (r: Bytes)
    ensures |r| == 4
  {
    [Symbol(a / 4), Symbol(a % 4 * 16 + b / 16), Symbol(b % 16 * 4 + c / 64), Symbol(c % 64)]
  }

  /** Four digits as three bytes. */
  function Triple(w: Digit, x: Digit, y: Digit, z: Digit): (r: Bytes)
    ensures |r| == 3
  {
    [w * 4 + x / 16, x % 16 * 16 + y / 4, y % 4 * 64 + z]
  }

  function TripleOf(v: Bytes): (r: Bytes)
    requires |v| == 4 && AreDigits(v)
    ensures |r| == 3
  {
    assert forall i :: 0 <= i < 4 ==> v[i] in v;
    Triple(ValueOf(v[0]), ValueOf(v[1]), ValueOf(v[2]), ValueOf(v[3]))
  }

  lemma QuadRoundTrip(a: Byte, b: Byte, c: Byte)
    ensures AreDigits(Quad(a, b, c)) && TripleOf(Quad(a, b, c)) == [a, b, c]
    ensures forall s :: s in Quad(a, b, c) ==> s != PAD && s !in NEWLINES
  {
    var w, x, y, z := a / 4, a % 4 * 16 + b / 16, b % 16 * 4 + c / 64, c % 64;
    SymbolRoundTrip(w);
    SymbolRoundTrip(x);
    SymbolRoundTrip(y);
    SymbolRoundTrip(z);
    hide Symbol, ValueOf;
    assert x / 16 == a % 4 && x % 16 == b / 16;
    assert y / 4 == b % 16 && y % 4 == c / 64;
  }

  /** The four symbols are the digits of the 24 bits, most significant first. */
  lemma QuadValue(a: Byte, b: Byte, c: Byte)
    ensures var q := Quad(a, b, c);
            && AreDigits(q)
            && ((ValueOf(q[0]) * 64 + ValueOf(q[1])) * 64 + ValueOf(q[2])) * 64 + ValueOf(q[3])
               == (a * 256 + b) * 256 + c
  {
    var w, x, y, z := a / 4, a % 4 * 16 + b / 16, b % 16 * 4 + c / 64, c % 64;
    SymbolRoundTrip(w);
    SymbolRoundTrip(x);
    SymbolRoundTrip(y);
    SymbolRoundTrip(z);
    hide Symbol, ValueOf;
    assert a == w * 4 + a % 4 && b == b / 16 * 16 + b % 16 && c == c / 64 * 64 + z;
  }

  function Encode(b: Bytes, pad: bool): Bytes {
    if |b| == 0 then []
    else if |b| == 1 then Quad(b[0], 0, 0)[..2] + (if pad then [PAD, PAD] else [])
    else if |b| == 2 then Quad(b[0], b[1], 0)[..3] + (if pad then [PAD] else [])
    else Quad(b[0], b[1], b[2]) + Encode(b[3..], pad)
  }

  /** Line breaks are skipped wherever they are. */
  function Strip(v: Bytes): (r: Bytes)
    ensures |r| <= |v|
  {
    if v == [] then [] else (if v[0] in NEWLINES then [] else [v[0]]) + Strip(v[1..])
  }

  const ZERO: Byte := 65     // the symbol for the digit 0

  /** The last group of an input; the bits left over are ignored. */
  function DecodeLast(v: Bytes, pad: bool): Option<Bytes> {
    var digits := if pad && |v| == 4 && v[2..] == [PAD, PAD] then v[..2]
                  else if pad && |v| == 4 && v[3] == PAD then v[..3]
                  else if pad then []
                  else v;
    if |digits| == 2 && AreDigits(digits) then Some(TripleOf([digits[0], digits[1], ZERO, ZERO])[..1])
    else if |digits| == 3 && AreDigits(digits) then Some(TripleOf([digits[0], digits[1], digits[2], ZERO])[..2])
    else None
  }

  function DecodeGroups(v: Bytes, pad: bool): (r: Option<Bytes>)
    ensures r.Some? && v != [] ==> |r.value| < |v|
  {
    if v == [] then Some([])
    else if |v| >= 4 && AreDigits(v[..4]) then
      var rest := DecodeGroups(v[4..], pad);
      if rest.None? then None else Some(TripleOf(v[..4]) + rest.value)
    else DecodeLast(v, pad)
  }

  /** What a decoder makes of any bytes; it always shrinks its input. */
  function Decode(v: Bytes, pad: bool): (r: Option<Bytes>)
    ensures r.Some? && v != [] ==> |r.value| < |v|
  {
    DecodeGroups(Strip(v), pad)
  }

  lemma {:induction false} StripKeeps(v: Bytes)
    requires forall c :: c in v ==> c !in NEWLINES
    ensures Strip(v) == v
  {
    if v != [] {
      StripKeeps(v[1..]);
    }
  }

  /** A last group of two or three digits, padded or not. */
  lemma LastGroup(digits: Bytes, pad: bool, v: Bytes)
    requires |digits| == 2 || |digits| == 3
    requires AreDigits(digits) && PAD !in digits
    requires v == digits + (if !pad then [] else if |digits| == 2 then [PAD, PAD] else [PAD])
    ensures DecodeGroups(v, pad)
         == Some(if |digits| == 2 then TripleOf([digits[0], digits[1], ZERO, ZERO])[..1] else TripleOf([digits[0], digits[1], digits[2], ZERO])[..2])
  {
    assert v[..|digits|] == digits;
    if pad {
      assert v[3] == PAD && v[..4][3] == PAD;
      assert PAD in v[..4] && !AreDigits(v[..4]);
      if |digits| == 2 {
        assert v[2..] == [PAD, PAD];
      } else {
        assert v[2..][0] == digits[2] && digits[2] in digits;
      }
    }
    hide TripleOf;
    assert DecodeGroups(v, pad) == DecodeLast(v, pad);
  }

  lemma FrontOfQuad(q: Bytes, n: nat)
    requires n <= |q| && AreDigits(q) && PAD !in q
    ensures AreDigits(q[..n]) && PAD !in q[..n]
  {
    assert forall s :: s in q[..n] ==> s in q;
  }

  lemma OneByteRoundTrip(a: Byte, pad: bool)
    ensures DecodeGroups(Encode([a], pad), pad) == Some([a])
  {
    var q := Quad(a, 0, 0);
    QuadRoundTrip(a, 0, 0);
    PaddingDigits(a, 0);
    FrontOfQuad(q, 2);
    hide Quad, TripleOf, DecodeGroups, AreDigits;
    var digits := q[..2];
    assert q == [digits[0], digits[1], ZERO, ZERO];
    LastGroup(digits, pad, Encode([a], pad));
    assert [a, 0, 0][..1] == [a];
  }

  lemma TwoBytesRoundTrip(a: Byte, b: Byte, pad: bool)
    ensures DecodeGroups(Encode([a, b], pad), pad) == Some([a, b])
  {
    var q := Quad(a, b, 0);
    QuadRoundTrip(a, b, 0);
    PaddingDigits(a, b);
    FrontOfQuad(q, 3);
    hide Quad, TripleOf, DecodeGroups, AreDigits;
    var digits := q[..3];
    assert q == [digits[0], digits[1], digits[2], ZERO];
    LastGroup(digits, pad, Encode([a, b], pad));
    assert [a, b, 0][..2] == [a, b];
  }

  lemma PaddingDigits(a: Byte, b: Byte)
    ensures Quad(a, b, 0)[3] == ZERO && (b == 0 ==> Quad(a, b, 0)[2] == ZERO)
  {
  }

  lemma {:induction false} GroupsRoundTrip(b: Bytes, pad: bool)
    ensures DecodeGroups(Encode(b, pad), pad) == Some(b)
  {
    if |b| == 0 {
    } else if |b| == 1 {
      OneByteRoundTrip(b[0], pad);
      assert b == [b[0]];
    } else if |b| == 2 {
      TwoBytesRoundTrip(b[0], b[1], pad);
      assert b == [b[0], b[1]];
    } else {
      GroupsRoundTrip(b[3..], pad);
      QuadRoundTrip(b[0], b[1], b[2]);
      hide Quad, TripleOf, DecodeLast;
      var v := Encode(b, pad);
      assert v[..4] == Quad(b[0], b[1], b[2]) && v[4..] == Encode(b[3..], pad);
      assert [b[0], b[1], b[2]] + b[3..] == b;
    }
  }

  lemma {:induction false} NoNewlines(b: Bytes, pad: bool)
    ensures forall c :: c in Encode(b, pad) ==> c !in NEWLINES
  {
    if |b| > 0 {
      var x, y := if |b| > 1 then b[1] else 0, if |b| > 2 then b[2] else 0;
      QuadRoundTrip(b[0], x, y);
      hide Quad, AreDigits, TripleOf;
      if |b| > 2 {
        NoNewlines(b[3..], pad);
      }
    }
  }

  /** Decoding undoes encoding, for all bytes. */
  lemma RoundTrip(b: Bytes, pad: bool)
    ensures Decode(Encode(b, pad), pad) == Some(b)
  {
    GroupsRoundTrip(b, pad);
    NoNewlines(b, pad);
    StripKeeps(Encode(b, pad));
  }

  /** The padded form is the plain one, filled up with equals signs to a multiple of
      four, by two of them at most. */
  lemma {:induction false} PaddingFills(b: Bytes)
    ensures var plain, padded := Encode(b, false), Encode(b, true);
            && |padded| % 4 == 0 && |plain| <= |padded| <= |plain| + 2
            && padded[..|plain|] == plain
            && forall i :: |plain| <= i < |padded| ==> padded[i] == '=' as int
    decreases |b|
  {
    if |b| > 2 {
      PaddingFills(b[3..]);
      var q, plain, padded := Quad(b[0], b[1], b[2]), Encode(b[3..], false), Encode(b[3..], true);
      assert (q + padded)[..|q + plain|] == q + padded[..|plain|];
      hide Quad;
    }
  }

  /** The digits of an input without padding. */
  lemma {:induction false} GroupsExactlyWhen(v: Bytes)
    ensures DecodeGroups(v, false).Some? <==> AreDigits(v) && |v| % 4 != 1
    decreases |v|
  {
    hide ValueOf;
    if |v| >= 4 {
      var head, tail := v[..4], v[4..];
      assert v == head + tail;
      assert AreDigits(v) <==> AreDigits(head) && AreDigits(tail);
      GroupsExactlyWhen(tail);
    }
  }

  /** Without padding exactly the inputs of digits are decoded, line breaks aside, whose
      number does not leave a remainder of one. */
  lemma DecodesExactlyWhen(v: Bytes)
    ensures Decode(v, false).Some? <==> AreDigits(Strip(v)) && |Strip(v)| % 4 != 1
  {
    GroupsExactlyWhen(Strip(v));
  }
}
