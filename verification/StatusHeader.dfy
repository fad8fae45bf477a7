/** The outcome of a unary call in the headers of an HTTP response: the status as
    `code:message` and each detail in base64. */
module StatusHeader {
  import opened Prelude
  import opened Framing
  import opened HeaderMetadata
  import Base64
  import Decimal
  import opened HttpStatus

  type DetailCodec = Codec<Detail>

  const COLON: Byte := 58

  const STATUS_NAME := "X-GRPC-Status"
  const DETAILS_NAME := "X-GRPC-Details"

  /** The names of the two headers, as stored. */
  const STATUS_KEY := "X-Grpc-Status"
  const DETAILS_KEY := "X-Grpc-Details"

  lemma StatusKeyStored()
    ensures Canonical(STATUS_NAME) == STATUS_KEY
  {
    CanonicalIs(STATUS_NAME, STATUS_KEY);
  }

  lemma DetailsKeyStored()
    ensures Canonical(DETAILS_NAME) == DETAILS_KEY == Canonical(DETAILS_KEY)
  {
    CanonicalIs(DETAILS_NAME, DETAILS_KEY);
    hide Canonical;
    CanonicalTwice(DETAILS_NAME);
  }

  /** A letter of a name: upper-case at the start and after a hyphen. */
  function LetterAt(k: string, upper: bool, i: nat): char
    requires i < |k|
  {
    if (if i == 0 then upper else k[i - 1] == '-') then UpperChar(k[i]) else LowerChar(k[i])
  }

  lemma {:induction false} CapitalizedIs(k: string, upper: bool, r: string)
    requires |r| == |k| && forall i :: 0 <= i < |k| ==> r[i] == LetterAt(k, upper, i)
    ensures Capitalize(k, upper) == r
  {
    if k == "" {
      assert r == "";
    } else {
      forall i | 0 <= i < |k| - 1 ensures r[1..][i] == LetterAt(k[1..], k[0] == '-', i) {
        assert r[i + 1] == LetterAt(k, upper, i + 1);
      }
      CapitalizedIs(k[1..], k[0] == '-', r[1..]);
      assert r[0] == LetterAt(k, upper, 0);
      assert [r[0]] + r[1..] == r;
    }
  }

  lemma CanonicalIs(k: string, r: string)
    requires |r| == |k| && forall i :: 0 <= i < |k| ==> IsToken(k[i]) && r[i] == LetterAt(k, true, i)
    ensures Canonical(k) == r
  {
    CapitalizedIs(k, true, r);
  }

  function StatusText(st: Stat): Bytes {
    Decimal.Print(st.code) + [COLON] + st.message
  }

  // ----- The server -----

  function DetailValues(codec: DetailCodec, details: seq<Detail>): (r: seq<Bytes>)
    ensures |r| == |details|
  {
    seq(|details|, i requires 0 <= i < |details| => Base64.Encode(codec.marshal(details[i]), false))
  }

  function Render(h: Fields, codec: DetailCodec, st: Stat): Fields {
    AddAll(h[STATUS_KEY := [StatusText(EffectiveStat(st))]],
           DETAILS_KEY, DetailValues(codec, EffectiveStat(st).details))
  }

  /** What a handler's error adds to the response headers. */
  method RenderError(h: Header, codec: DetailCodec, st: Stat)
    modifies h
    ensures h.fields == Render(old(h.fields), codec, st)
  {
    hide Canonical, StatusText, Base64.Encode;
    var st := st;
    if st.code == CODE_OK {
      st := st.(code := INTERNAL);
    }
    StatusKeyStored();
    h.fields := h.fields[Canonical(STATUS_NAME) := [StatusText(st)]];
    DetailsKeyStored();
    AddDetails(h, DETAILS_KEY, codec, st.details);
  }

  method AddDetails(h: Header, key: string, codec: DetailCodec, details: seq<Detail>)
    requires Canonical(key) == key
    modifies h
    ensures h.fields == AddAll(old(h.fields), key, DetailValues(codec, details))
  {
    hide Canonical, Base64.Encode, AddAll;
    ghost var before, values := h.fields, DetailValues(codec, details);
    AddNone(before, key);
    for i := 0 to |details|
      invariant h.fields == AddAll(before, key, values[..i])
    {
      var str := Base64.Encode(codec.marshal(details[i]), false);
      AddAllMore(before, key, values[..i], str);
      assert values[..i + 1] == values[..i] + [str];
      h.Add(key, str);
    }
    assert values[..|values|] == values;
  }

  lemma CanonicalTwice(k: string)
    ensures Canonical(Canonical(k)) == Canonical(k)
  {
    if forall c :: c in k ==> IsToken(c) {
      CapitalizeTwice(k, true);
    }
  }

  lemma {:induction false} CapitalizeTwice(k: string, upper: bool)
    ensures Capitalize(Capitalize(k, upper), upper) == Capitalize(k, upper)
    ensures (forall c :: c in k ==> IsToken(c)) ==> forall c :: c in Capitalize(k, upper) ==> IsToken(c)
  {
    if k != "" {
      var r := Capitalize(k, upper);
      CapitalizeTwice(k[1..], k[0] == '-');
      assert r[0] == '-' <==> k[0] == '-';
      assert r[1..] == Capitalize(k[1..], k[0] == '-');
      if forall c :: c in k ==> IsToken(c) {
        assert k[0] in k && IsToken(r[0]);
        assert forall c :: c in r ==> c == r[0] || c in r[1..];
        assert forall c :: c in k[1..] ==> c in k;
      }
    }
  }

  // ----- The client -----

  /** SplitN with two parts. */
  function Split(b: Bytes): (r: (Bytes, Option<Bytes>))
    ensures COLON !in r.0
    ensures b == r.0 + (if r.1.Some? then [COLON] + r.1.value else [])
  {
    if b == [] then ([], None)
    else if b[0] == COLON then ([], Some(b[1..]))
    else
      var (x, y) := Split(b[1..]);
      ([b[0]] + x, y)
  }

  /** Details that do not decode are skipped. */
  function DecodeDetails(codec: DetailCodec, vs: seq<Bytes>): seq<Detail> {
    if vs == [] then []
    else
      var n := |vs| - 1;
      DecodeDetails(codec, vs[..n]) + DecodeDetail(codec, vs[n])
  }

  function DecodeDetail(codec: DetailCodec, v: Bytes): seq<Detail> {
    var b := Base64.Decode(v, false);
    if b.None? then []
    else
      var d := codec.unmarshal(b.value);
      if d.None? then [] else [d.value]
  }

  function FirstValue(vs: seq<Bytes>): Bytes {
    if vs == [] then [] else vs[0]
  }

  /** The status a response stands for, None for success; httpCode and httpStatus
      are what the status line alone would mean. */
  function StatusOf(h: Fields, codec: DetailCodec, httpCode: Int32, httpStatus: Bytes): Option<Stat> {
    var (first, second) := Split(FirstValue(Held(h, STATUS_KEY)));
    var parsed := if first == [] then None else Decimal.ParseInt(first, MIN_INT32, MAX_INT32);
    var code: Int32 := if parsed.Some? && MIN_INT32 <= parsed.value <= MAX_INT32 then parsed.value else httpCode;
    var message := if first != [] && second.Some? then second.value else httpStatus;
    if code == CODE_OK then None
    else Some(Stat(code, message, DecodeDetails(codec, Held(h, DETAILS_KEY))))
  }

  method StatFromResponse(h: Fields, codec: DetailCodec, httpCode: Int32, httpStatus: Bytes) returns (r: Option<Stat>)
    ensures r == StatusOf(h, codec, httpCode, httpStatus)
  {
    hide Canonical, Base64.Decode, Decimal.ParseInt;
    var code, msg := httpCode, httpStatus;
    var (first, second) := Split(FirstValue(Held(h, STATUS_KEY)));
    if first != [] {
      var c := Decimal.ParseInt(first, MIN_INT32, MAX_INT32);
      if c.Some? && MIN_INT32 <= c.value <= MAX_INT32 {
        code := c.value;
      }
      if second.Some? {
        msg := second.value;
      }
    }
    if code == CODE_OK {
      return None;
    }
    var headers := Held(h, DETAILS_KEY);
    var details: seq<Detail> := [];
    for i := 0 to |headers|
      invariant details == DecodeDetails(codec, headers[..i])
    {
      assert headers[..i + 1][..i] == headers[..i];
      var b := Base64.Decode(headers[i], false);
      if b.Some? {
        var d := codec.unmarshal(b.value);
        if d.Some? {
          details := details + [d.value];
        }
      }
    }
    assert headers[..|headers|] == headers;
    return Some(Stat(code, msg, details));
  }

  // ----- The round trip -----

  lemma {:induction false} SplitAt(x: Bytes, y: Bytes)
    requires COLON !in x
    ensures Split(x + [COLON] + y) == (x, Some(y))
  {
    var b := x + [COLON] + y;
    if x == [] {
      assert b == [COLON] + y;
    } else {
      assert b[1..] == x[1..] + [COLON] + y;
      assert b[0] == x[0] && x[0] in x;
      SplitAt(x[1..], y);
      assert [x[0]] + x[1..] == x;
    }
  }

  lemma {:induction false} SplitWhole(x: Bytes)
    requires COLON !in x
    ensures Split(x) == (x, None)
  {
    if x != [] {
      assert x[0] in x;
      assert forall c :: c in x[1..] ==> c in x;
      SplitWhole(x[1..]);
      assert [x[0]] + x[1..] == x;
    }
  }

  /** What is left of a header value: its text before the first colon, and the text
      after it, if there is a colon. */
  ghost predicate Parts(value: Bytes, code: Bytes, text: Option<Bytes>) {
    58 !in code && value == (if text.Some? then code + [58] + text.value else code)
  }

  lemma PartsAre(value: Bytes, code: Bytes, text: Option<Bytes>)
    requires Parts(value, code, text)
    ensures Split(value) == (code, text)
  {
    if text.Some? {
      SplitAt(code, text.value);
    } else {
      SplitWhole(code);
    }
  }

  /** A response without a status header, or with nothing in front of the colon of its
      first value: it means what its status line does. */
  lemma StatusLineRules(h: Fields, codec: DetailCodec, value: Bytes, text: Option<Bytes>,
                        httpCode: Int32, httpStatus: Bytes)
    requires Held(h, "X-Grpc-Status") == [] || (Held(h, "X-Grpc-Status")[0] == value && Parts(value, [], text))
    ensures var r := StatusOf(h, codec, httpCode, httpStatus);
            && (r == None <==> httpCode == 0)
            && (r.Some? ==> r.value.code == httpCode && r.value.message == httpStatus)
  {
    if Held(h, STATUS_KEY) != [] {
      PartsAre(value, [], text);
    } else {
      SplitWhole([]);
    }
    hide Held, Split, DecodeDetails, Decimal.ParseInt, Parts;
  }

  /** With something in front of it: the code is that number, or the status line's if
      it is none; and the message is what follows the colon, or the status line if
      there is no colon. */
  lemma HeaderRules(h: Fields, codec: DetailCodec, code: Bytes, text: Option<Bytes>, httpCode: Int32, httpStatus: Bytes)
    requires Held(h, "X-Grpc-Status") != [] && Parts(Held(h, "X-Grpc-Status")[0], code, text) && code != []
    ensures var r := StatusOf(h, codec, httpCode, httpStatus);
            var n := Decimal.ParseInt(code, MIN_INT32, MAX_INT32);
            && (r == None <==> n == Some(0) || (n == None && httpCode == 0))
            && (r.Some? && n.Some? ==> r.value.code == n.value)
            && (r.Some? && n.None? ==> r.value.code == httpCode)
            && (r.Some? && text.Some? ==> r.value.message == text.value)
            && (r.Some? && text.None? ==> r.value.message == httpStatus)
            && (r.Some? ==> r.value.details == DecodeDetails(codec, Held(h, "X-Grpc-Details")))
  {
    PartsAre(Held(h, STATUS_KEY)[0], code, text);
    hide Held, Split, DecodeDetails, Decimal.ParseInt, Parts;
  }

  /** A detail that does not decode is left out, and the others stay. */
  lemma DetailSkipped(codec: DetailCodec, before: seq<Bytes>, v: Bytes)
    ensures var b := Base64.Decode(v, false);
            DecodeDetails(codec, before + [v])
            == DecodeDetails(codec, before)
               + (if b.None? || codec.unmarshal(b.value).None? then [] else [codec.unmarshal(b.value).value])
  {
    hide Base64.Decode;
    assert (before + [v])[..|before|] == before;
  }

  lemma PrintedHasNoColon(n: int)
    ensures COLON !in Decimal.Print(n) && Decimal.Print(n) != []
  {
    var p, m := Decimal.Print(n), if n < 0 then -n else n;
    var digits := Decimal.PrintNat(m);
    hide Decimal.PrintNat;
    forall i | 0 <= i < |p| ensures p[i] != COLON {
      assert p[i] == Decimal.MINUS || Decimal.IsDigit(p[i]) by {
        assert n < 0 && i > 0 ==> p[i] == digits[i - 1];
      }
    }
  }

  lemma DetailRoundTrip(codec: DetailCodec, d: Detail)
    requires Lawful(codec)
    ensures DecodeDetail(codec, Base64.Encode(codec.marshal(d), false)) == [d]
  {
    Base64.RoundTrip(codec.marshal(d), false);
    hide Base64.Encode, Base64.Decode;
    assert codec.unmarshal(codec.marshal(d)) == Some(d);
  }

  lemma {:induction false} DetailsAppend(codec: DetailCodec, before: seq<Bytes>, details: seq<Detail>)
    requires Lawful(codec)
    ensures DecodeDetails(codec, before + DetailValues(codec, details)) == DecodeDetails(codec, before) + details
    decreases |details|
  {
    hide Lawful, DecodeDetail, Base64.Encode;
    var all := before + DetailValues(codec, details);
    if details == [] {
      assert all == before;
      assert DecodeDetails(codec, before) + [] == DecodeDetails(codec, before);
    } else {
      var n := |details| - 1;
      DetailRoundTrip(codec, details[n]);
      DetailsAppend(codec, before, details[..n]);
      assert all[..|all| - 1] == before + DetailValues(codec, details[..n]);
      assert all[|all| - 1] == Base64.Encode(codec.marshal(details[n]), false);
      assert details == details[..n] + [details[n]];
    }
  }

  /** What reaches the client, whatever the error renderer did to the rest of the
      response: h is any header map that keeps the two headers. */
  ghost predicate LeftInPlace(rendered: Fields, h: Fields) {
    && Held(h, STATUS_KEY) == Held(rendered, STATUS_KEY)
    && Held(h, DETAILS_KEY) == Held(rendered, DETAILS_KEY)
  }

  lemma RenderedAt(h0: Fields, codec: DetailCodec, st: Stat)
    ensures Held(Render(h0, codec, st), STATUS_KEY) == [StatusText(EffectiveStat(st))]
    ensures Held(Render(h0, codec, st), DETAILS_KEY)
         == Held(h0, DETAILS_KEY) + DetailValues(codec, EffectiveStat(st).details)
  {
    assert |STATUS_KEY| != |DETAILS_KEY|;
    hide Canonical, StatusText, DetailValues, EffectiveStat;
    var vs := DetailValues(codec, EffectiveStat(st).details);
    assert vs == [] ==> Held(h0, DETAILS_KEY) + vs == Held(h0, DETAILS_KEY);
  }

  lemma TextRead(h: Fields, codec: DetailCodec, code: Int32, message: Bytes, httpCode: Int32, httpStatus: Bytes)
    requires Held(h, STATUS_KEY) == [Decimal.Print(code) + [COLON] + message] && code != CODE_OK
    ensures StatusOf(h, codec, httpCode, httpStatus)
         == Some(Stat(code, message, DecodeDetails(codec, Held(h, DETAILS_KEY))))
  {
    hide Held, Split, DecodeDetails, Decimal.Print, Decimal.ParseInt;
    PrintedHasNoColon(code);
    SplitAt(Decimal.Print(code), message);
    Decimal.RoundTrip(code, MIN_INT32, MAX_INT32);
    assert Split(FirstValue(Held(h, STATUS_KEY))) == (Decimal.Print(code), Some(message));
  }

  /** For every handler error, the client gets a failure with the same code (an OK
      code as internal) and the same message, with colons in it or empty; its
      details are the error's own, in order, after any that the handler's own
      metadata put under the same name. */
  lemma StatusRoundTrip(h0: Fields, codec: DetailCodec, st: Stat, h: Fields, httpCode: Int32, httpStatus: Bytes)
    requires Lawful(codec) && LeftInPlace(Render(h0, codec, st), h)
    ensures StatusOf(h, codec, httpCode, httpStatus)
         == Some(Stat(if st.code == 0 then 13 else st.code, st.message,
                      DecodeDetails(codec, Held(h0, DETAILS_KEY)) + st.details))
  {
    RenderedAt(h0, codec, st);
    var e := EffectiveStat(st);
    DetailsAppend(codec, Held(h0, DETAILS_KEY), e.details);
    assert Held(h, STATUS_KEY) == [Decimal.Print(e.code) + [COLON] + e.message];
    hide Held, Render, DetailValues, DecodeDetails, StatusOf, Decimal.Print;
    TextRead(h, codec, e.code, e.message, httpCode, httpStatus);
  }

  /** So the status arrives unchanged exactly when it was not OK and the handler set
      no decodable detail as metadata. */
  lemma UnchangedExactlyWhen(h0: Fields, codec: DetailCodec, st: Stat, httpCode: Int32, httpStatus: Bytes)
    requires Lawful(codec)
    ensures StatusOf(Render(h0, codec, st), codec, httpCode, httpStatus) == Some(st)
       <==> st.code != CODE_OK && DecodeDetails(codec, Held(h0, DETAILS_KEY)) == []
  {
    hide Held, Render, DecodeDetails, StatusOf, Lawful;
    StatusRoundTrip(h0, codec, st, Render(h0, codec, st), httpCode, httpStatus);
    var own := DecodeDetails(codec, Held(h0, DETAILS_KEY));
    assert |own + st.details| == |own| + |st.details|;
    assert [] + st.details == st.details;
  }
}
