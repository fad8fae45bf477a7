/** What the client of a stream makes of the headers of the reply. The handler's
    metadata are among them, and nothing keeps it from using the name of the status
    header: the client then takes the reply for a failure and never looks at its
    body. */
module HttpReply {
  import opened Prelude
  import opened Framing
  import opened HeaderMetadata
  import opened HttpStatus
  import opened HttpClient
  import opened StatusHeader
  import opened StatusMetadata
  import opened HttpServer
  import opened HttpWitnesses
  import Base64
  import Decimal

  /** What is not the handler's doing: the headers that others set, the orders in
      which keys are written and read, and the text of the status line. */
  datatype Reading = Reading(others: Fields, orders: seq<seq<string>>, read: seq<string>, statusLine: Bytes)

  /** The reply's headers, for a handler that set some metadata before they went out. */
  ghost function ReplyHeaders(r: Reading, mds: seq<Fields>): Fields
    requires EnumerateAll(r.orders, mds)
  {
    WriteAll(r.others, mds, r.orders)
  }

  /** Nobody else sets a status or a binary header. */
  ghost predicate ValidReading(r: Reading, mds: seq<Fields>) {
    && EnumerateAll(r.orders, mds)
    && Held(r.others, STATUS_KEY) == []
    && (forall c :: c in r.others ==> !IsBin(c))
    && Enumerates(r.read, ReplyHeaders(r, mds).Keys)
  }

  /** doHttpCall, up to the body: the headers as metadata, then the status in them. */
  ghost function ReplyOf(r: Reading, mds: seq<Fields>, codec: DetailCodec): Reply
    requires ValidReading(r, mds)
  {
    var h := ReplyHeaders(r, mds);
    if ReadKeys(h, r.read).None? then BadHeaders("illegal base64 data")
    else
      match StatusOf(h, codec, CODE_OK, r.statusLine)
      case None => Streaming
      case Some(st) => ErrorStatus(st)
  }

  // ----- The headers can always be read -----

  /** Every value under a binary name decodes. */
  ghost predicate Decodable(h: Fields) {
    forall c :: c in h ==> Decoded(Lower(c), h[c]).Some?
  }

  lemma {:induction false} DecodeAllSome(vs: seq<Bytes>)
    ensures DecodeAll(vs).Some? <==> forall v :: v in vs ==> Base64.Decode(v, true).Some?
  {
    hide Base64.Decode;
    if vs != [] {
      var n := |vs| - 1;
      DecodeAllSome(vs[..n]);
      assert vs == vs[..n] + [vs[n]];
      assert forall v :: v in vs <==> v in vs[..n] || v == vs[n];
    }
  }

  lemma DecodedMore(k: string, a: seq<Bytes>, b: seq<Bytes>)
    requires Decoded(k, a).Some? && Decoded(k, b).Some?
    ensures Decoded(k, a + b).Some?
  {
    hide DecodeAll, Lower;
    DecodeAllSome(a);
    DecodeAllSome(b);
    DecodeAllSome(a + b);
  }

  /** A name is binary whatever its case. */
  lemma DecodedAlike(k: string, l: string, vs: seq<Bytes>)
    requires Lower(k) == Lower(l)
    ensures Decoded(k, vs) == Decoded(l, vs)
  {
    hide DecodeAll, Lower;
  }

  lemma KeyKeepsDecodable(h: Fields, md: Fields, k: string)
    requires k in md && Decodable(h)
    ensures Decodable(WriteKey(h, md, "", k))
  {
    assert "" + k == k;
    var name, vs := Canonical(k), Encoded(k, md[k]);
    LowerTwice(name);
    ValuesRoundTrip(k, md[k]);
    DecodedAlike(k, Lower(name), vs);
    hide Lower, Canonical, Encoded, Decoded;
    if name in h {
      DecodedMore(Lower(name), h[name], vs);
    } else {
      assert [] + vs == vs;
    }
  }

  lemma {:induction false} KeysKeepDecodable(h: Fields, md: Fields, order: seq<string>)
    requires Decodable(h) && forall k :: k in order ==> k in md
    ensures Decodable(WriteKeys(h, md, "", order))
  {
    hide WriteKey, Decodable;
    if order != [] {
      var n := |order| - 1;
      KeysKeepDecodable(h, md, order[..n]);
      KeyKeepsDecodable(WriteKeys(h, md, "", order[..n]), md, order[n]);
    }
  }

  lemma {:induction false} AllKeepDecodable(h: Fields, mds: seq<Fields>, orders: seq<seq<string>>)
    requires Decodable(h) && EnumerateAll(orders, mds)
    ensures Decodable(WriteAll(h, mds, orders))
  {
    hide WriteKeys, Decodable;
    if mds != [] {
      var n := |mds| - 1;
      AllKeepDecodable(h, mds[..n], orders[..n]);
      KeysKeepDecodable(WriteAll(h, mds[..n], orders[..n]), mds[n], orders[n]);
    }
  }

  lemma NotBinaryDecodes(c: string, vs: seq<Bytes>)
    requires !IsBin(c)
    ensures Decoded(Lower(c), vs).Some?
  {
    LowerTwice(c);
    DecodedAlike(c, Lower(c), vs);
  }

  /** Whatever the handler's metadata, reading the headers does not fail. */
  lemma HeadersAreRead(r: Reading, mds: seq<Fields>)
    requires ValidReading(r, mds)
    ensures ReadKeys(ReplyHeaders(r, mds), r.read).Some?
  {
    hide Lower, IsBin, Decoded, WriteAll, Held, ReadKeys;
    assert Decodable(r.others) by {
      forall c | c in r.others ensures Decoded(Lower(c), r.others[c]).Some? {
        NotBinaryDecodes(c, r.others[c]);
      }
    }
    AllKeepDecodable(r.others, mds, r.orders);
    ReadAt(ReplyHeaders(r, mds), r.read, "");
  }

  // ----- The status in them -----

  /** The values set under the status name, in the order in which they were set. */
  ghost function StatusesSet(mds: seq<Fields>, orders: seq<seq<string>>): seq<Bytes>
    requires |orders| == |mds|
  {
    if mds == [] then []
    else
      var n := |mds| - 1;
      StatusesSet(mds[..n], orders[..n]) + StatusValues(mds[n], orders[n])
  }

  lemma EnumerateFront(orders: seq<seq<string>>, mds: seq<Fields>)
    requires EnumerateAll(orders, mds) && mds != []
    ensures var n := |mds| - 1;
            && |orders| == |mds|
            && EnumerateAll(orders[..n], mds[..n])
            && forall k :: k in orders[n] ==> k in mds[n]
  {
  }

  lemma {:induction false} StatusesHeld(h: Fields, mds: seq<Fields>, orders: seq<seq<string>>)
    requires EnumerateAll(orders, mds)
    ensures Held(WriteAll(h, mds, orders), STATUS_KEY) == Held(h, STATUS_KEY) + StatusesSet(mds, orders)
  {
    hide Held, WriteKeys, WritePart, StatusValues, EnumerateAll, Enumerates;
    if mds == [] {
      assert Held(h, STATUS_KEY) + [] == Held(h, STATUS_KEY);
    } else {
      var n := |mds| - 1;
      EnumerateFront(orders, mds);
      StatusesHeld(h, mds[..n], orders[..n]);
      WrittenAt(WriteAll(h, mds[..n], orders[..n]), mds[n], "", orders[n], STATUS_KEY);
      StatusGathered(mds[n], orders[n]);
    }
  }

  /** For lower-case keys, as gRPC demands them, those of one key; no order matters. */
  function ValuesSet(mds: seq<Fields>, k: string): seq<Bytes> {
    if mds == [] then []
    else
      var n := |mds| - 1;
      ValuesSet(mds[..n], k) + Held(mds[n], k)
  }

  lemma {:induction false} StatusesSetLower(mds: seq<Fields>, orders: seq<seq<string>>)
    requires EnumerateAll(orders, mds) && forall md, k :: md in mds && k in md ==> IsLower(k)
    ensures StatusesSet(mds, orders) == ValuesSet(mds, STATUS_METADATA)
  {
    hide Lower, StatusValues, Held;
    if mds != [] {
      var n := |mds| - 1;
      assert mds[n] in mds;
      StatusesSetLower(mds[..n], orders[..n]);
      StatusValuesLower(mds[n], orders[n]);
    }
  }

  /** The handler's metadata name no failure. */
  ghost predicate NoFailureSet(r: Reading, mds: seq<Fields>)
    requires |r.orders| == |mds|
  {
    var vs := StatusesSet(mds, r.orders);
    vs == [] || Harmless(vs[0])
  }

  lemma OneValueSet(k: string, v: Bytes)
    ensures ValuesSet([map[k := [v]]], k) == [v]
  {
    var mds: seq<Fields> := [map[k := [v]]];
    assert mds[..0] == [];
    assert ValuesSet(mds[..0], k) == [];
  }

  lemma FailureValue(orders: seq<seq<string>>, code: Int32, message: Bytes)
    requires EnumerateAll(orders, [FailureMetadata(code, message)])
    ensures StatusesSet([FailureMetadata(code, message)], orders) == [Decimal.Print(code) + [COLON] + message]
  {
    var text := Decimal.Print(code) + [COLON] + message;
    StatusMetadataLower();
    hide StatusesSet, Decimal.Print, IsLower, ValuesSet, EnumerateAll;
    StatusesSetLower([FailureMetadata(code, message)], orders);
    OneValueSet(STATUS_METADATA, text);
  }

  lemma FailureText(code: Int32, message: Bytes)
    requires code != CODE_OK
    ensures var text := Decimal.Print(code) + [COLON] + message;
            && Split(text).1 == Some(message)
            && Decimal.ParseInt(Split(text).0, MIN_INT32, MAX_INT32) == Some(code)
            && !Harmless(text)
  {
    PrintedHasNoColon(code);
    SplitAt(Decimal.Print(code), message);
    Decimal.RoundTrip(code, MIN_INT32, MAX_INT32);
    hide Decimal.Print, Decimal.ParseInt, Split;
  }

  /** With that metadata the first value under the status name is that failure. */
  lemma FailureIsSet(r: Reading, code: Int32, message: Bytes)
    requires ValidReading(r, [FailureMetadata(code, message)]) && code != CODE_OK
    ensures var vs := StatusesSet([FailureMetadata(code, message)], r.orders);
            && vs != [] && Split(vs[0]).1 == Some(message)
            && Decimal.ParseInt(Split(vs[0]).0, MIN_INT32, MAX_INT32) == Some(code)
            && !NoFailureSet(r, [FailureMetadata(code, message)])
  {
    hide FailureMetadata, StatusesSet, Decimal.Print, Decimal.ParseInt, Split, Harmless, EnumerateAll;
    FailureValue(r.orders, code, message);
    FailureText(code, message);
  }

  /** Every failure the client reads has a code other than OK. */
  lemma StatusCode(h: Fields, codec: DetailCodec, httpStatus: Bytes)
    ensures var st := StatusOf(h, codec, CODE_OK, httpStatus);
            st.Some? ==> st.value.code != CODE_OK
  {
    hide Held, Split, DecodeDetails, Decimal.ParseInt;
  }

  /** The client goes on to the body exactly when the handler's metadata hold nothing
      under the status name or the first value there is harmless. */
  lemma StreamsExactlyWhen(r: Reading, mds: seq<Fields>, codec: DetailCodec)
    requires ValidReading(r, mds)
    ensures var reply := ReplyOf(r, mds, codec);
            && (reply == Streaming <==> NoFailureSet(r, mds))
            && (reply != Streaming ==> reply.ErrorStatus? && reply.stat.code != CODE_OK)
  {
    hide Held, ReadKeys, Harmless, StatusesSet, WriteAll, StatusOf;
    HeadersAreRead(r, mds);
    var h := ReplyHeaders(r, mds);
    StatusesHeld(r.others, mds, r.orders);
    var vs := StatusesSet(mds, r.orders);
    assert [] + vs == vs;
    NoStatusExactlyWhen(h, codec, r.statusLine);
    StatusCode(h, codec, r.statusLine);
  }

  /** What the client then takes the status from: that first value. */
  lemma FailureRead(r: Reading, mds: seq<Fields>, codec: DetailCodec, st: Stat)
    requires ValidReading(r, mds) && ReplyOf(r, mds, codec) == ErrorStatus(st)
    ensures var vs := StatusesSet(mds, r.orders);
            && vs != []
            && Decimal.ParseInt(Split(vs[0]).0, MIN_INT32, MAX_INT32) == Some(st.code)
            && st.message == Split(vs[0]).1.GetOr(r.statusLine)
  {
    StreamsExactlyWhen(r, mds, codec);
    hide Held, ReadKeys, StatusesSet, WriteAll, ValidReading, StatusOf, Harmless;
    StatusesHeld(r.others, mds, r.orders);
    var vs := StatusesSet(mds, r.orders);
    assert [] + vs == vs;
    StatusIs(ReplyHeaders(r, mds), codec, r.statusLine);
  }

  lemma StatusIs(h: Fields, codec: DetailCodec, httpStatus: Bytes)
    requires Held(h, STATUS_KEY) != [] && !Harmless(Held(h, STATUS_KEY)[0])
    ensures var st, (code, text) := StatusOf(h, codec, CODE_OK, httpStatus), Split(Held(h, STATUS_KEY)[0]);
            st.Some? ==>
              && Decimal.ParseInt(code, MIN_INT32, MAX_INT32) == Some(st.value.code)
              && st.value.message == text.GetOr(httpStatus)
  {
    hide Held, Split, DecodeDetails, Decimal.ParseInt;
  }

  // ----- The stream of a reply that carries a failure -----

  /** The reader never gets to the body, and records the status before it is done. */
  ghost predicate StatusReader(s: Sys, st: Stat) {
    && s.sh.rErr.None?
    && (s.rd.Starting? || s.rd == Exiting(None) || LockHeld(s.rd) || s.rd.Finished?)
    && s.sh.tr == (if s.rd.Starting? then NO_TRAILER
                   else HttpTrailer(map[], st.code, st.message, st.details))
    && (s.sh.done ==> ReaderOver(s.rd))
  }

  ghost predicate StatusOnly(s: Sys, st: Stat) {
    !Disturbed(s) ==>
      && !s.ctx && StatusReader(s, st)
      && (s.pc.Idle? || s.pc.Entering? || s.pc.Select1? || s.pc.SawClosed1?)
      && forall o :: o in s.outs ==> o == Failed(StatusError(st))
  }

  lemma StatusStep(s: Sys, env: Env, step: Step)
    requires env.reply.ErrorStatus? && env.reply.stat.code != CODE_OK
    requires CloseInv(s) && StatusOnly(s, env.reply.stat) && Enabled(s, env, step)
    ensures StatusOnly(Apply(s, env, step), env.reply.stat)
  {
  }

  lemma {:induction false} StatusReachable(env: Env, s: Sys, steps: seq<Step>, s': Sys)
    requires env.reply.ErrorStatus? && env.reply.stat.code != CODE_OK
    requires Inv(s, env) && StatusOnly(s, env.reply.stat) && IsRun(s, env, steps, s')
    ensures StatusOnly(s', env.reply.stat)
    decreases |steps|
  {
    hide OrderInv, CloseInv, EndInv, CtxInv, StatusOnly, Apply, Enabled;
    if steps != [] {
      InvStep(s, env, steps[0]);
      StatusStep(s, env, steps[0]);
      StatusReachable(env, Apply(s, env, steps[0]), steps[1..], s');
    }
  }

  /** In every interleaving that nothing disturbs every RecvMsg, of a streaming or a
      single response, returns that status; no message and no trailer is delivered. */
  lemma StatusReplaces(env: Env, steps: seq<Step>, s: Sys)
    requires env.reply.ErrorStatus? && env.reply.stat.code != CODE_OK
    requires IsRun(Init(), env, steps, s) && !Disturbed(s)
    ensures forall o :: o in s.outs ==> o == Failed(StatusError(env.reply.stat))
    ensures s.sh.tr.metadata == map[]
  {
    InitInv(env);
    StatusReachable(env, Init(), steps, s);
  }

  /** The reader is over without having looked at the body. */
  lemma ReaderGivesUp(env: Env) returns (steps: seq<Step>, s: Sys)
    requires env.reply.ErrorStatus?
    ensures IsRun(Init(), env, steps, s)
    ensures var st := env.reply.stat;
            s == Init().(rd := Finished,
                         sh := Shared(true, None, HttpTrailer(map[], st.code, st.message, st.details), true, false))
  {
    hide IsRun;
    steps, s := StartRun(env);
    steps, s := Then(env, steps, s, RoundTrip);
    steps, s := Then(env, steps, s, LockForExit);
    steps, s := Then(env, steps, s, SetDone);
    steps, s := Then(env, steps, s, CloseChannel);
    steps, s := Then(env, steps, s, Unlock);
  }

  /** And there is such a run. */
  lemma StatusReported(env: Env) returns (steps: seq<Step>, s: Sys)
    requires env.reply.ErrorStatus? && env.reply.stat.code != CODE_OK
    ensures IsRun(Init(), env, steps, s) && !Disturbed(s)
    ensures s.outs == [Failed(StatusError(env.reply.stat))] && s.sh.done
  {
    var st := env.reply.stat;
    assert st == Stat(st.code, st.message, st.details);
    hide IsRun;
    steps, s := ReaderGivesUp(env);
    steps, s := Then(env, steps, s, CallRecv);
    steps, s := Then(env, steps, s, CheckDone);
    assert EndOf(s.sh) == Failed(StatusError(st));
  }
}
