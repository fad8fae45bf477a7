/** What a handler's own metadata can do to the status a client reads: nothing keeps
    it from using the name of the status header. */
module StatusMetadata {
  import opened Prelude
  import opened Framing
  import opened HeaderMetadata
  import opened HeaderRoundTrip
  import opened StatusHeader
  import Decimal
  import opened HttpStatus

  /** The key under which metadata become the status header. */
  const STATUS_METADATA := "x-grpc-status"

  // ----- Names that are stored alike -----

  lemma {:induction false} CapitalizeLower(k: string, upper: bool)
    ensures Capitalize(Lower(k), upper) == Capitalize(k, upper)
  {
    if k != "" {
      assert Lower(k)[1..] == Lower(k[1..]);
      assert Lower(k)[0] == '-' <==> k[0] == '-';
      CapitalizeLower(k[1..], k[0] == '-');
    }
  }

  /** Token names are stored by their letters, whatever their case. */
  lemma CanonicalLower(k: string, l: string)
    requires Lower(k) == Lower(l) && forall c :: c in l ==> IsToken(c)
    ensures Canonical(k) == Canonical(l)
  {
    CapitalizeLower(k, true);
    CapitalizeLower(l, true);
    hide Lower, Capitalize;
    forall i | 0 <= i < |k| ensures IsToken(k[i]) {
      assert LowerChar(k[i]) == Lower(k)[i] == Lower(l)[i] == LowerChar(l[i]) && l[i] in l;
    }
    assert forall c :: c in k ==> IsToken(c);
  }

  lemma StatusNameLower()
    ensures Lower(STATUS_NAME) == STATUS_METADATA
  {
    PrefixesAgree(STATUS_NAME, STATUS_METADATA);
  }

  lemma StatusMetadataLower()
    ensures IsLower(STATUS_METADATA)
  {
    StatusNameLower();
    hide Lower;
    LowerTwice(STATUS_NAME);
  }

  lemma StatusNameIsToken()
    ensures forall c :: c in STATUS_NAME ==> IsToken(c)
  {
    assert forall i :: 0 <= i < |STATUS_NAME| ==> IsToken(STATUS_NAME[i]);
  }

  /** A key is stored as the status header exactly if it is its name in any case. */
  lemma StoredAsStatus(k: string)
    ensures Canonical(k) == STATUS_KEY <==> Lower(k) == STATUS_METADATA
  {
    StatusNameLower();
    StatusKeyStored();
    hide Lower, IsToken, Canonical;
    if Lower(k) == STATUS_METADATA {
      StatusNameIsToken();
      CanonicalLower(k, STATUS_NAME);
    }
  }

  // ----- The status header of a response without an error -----

  /** The values under the status name, in the order the keys were written. */
  function StatusPart(hd: Fields): string -> seq<Bytes> {
    k => if k in hd && Lower(k) == STATUS_METADATA then hd[k] else []
  }

  function StatusValues(hd: Fields, order: seq<string>): seq<Bytes> {
    Gather(order, StatusPart(hd))
  }

  lemma {:induction false} GatherSame(order: seq<string>, f: string -> seq<Bytes>, g: string -> seq<Bytes>)
    requires forall k :: k in order ==> f(k) == g(k)
    ensures Gather(order, f) == Gather(order, g)
  {
    if order != [] {
      GatherSame(order[..|order| - 1], f, g);
    }
  }

  lemma NotReservedNorBinary(k: string)
    requires Lower(k) == STATUS_METADATA
    ensures Lower(k) !in RESERVED && !IsBin(k)
  {
    hide Lower;
    assert |k| == 13 && STATUS_METADATA[9..][0] == 'a';
    assert "-bin"[0] != 'a';
  }

  lemma PartUnder(hd: Fields, k: string, key: string, name: string)
    requires Canonical(k) == key <==> Lower(k) == name
    requires Lower(k) == name ==> Lower(k) !in RESERVED && !IsBin(k)
    ensures WritePart(hd, "", key)(k) == if k in hd && Lower(k) == name then hd[k] else []
  {
    hide Lower, Canonical, IsBin;
    assert "" + k == k;
  }

  lemma StatusPartIs(hd: Fields, k: string)
    ensures WritePart(hd, "", STATUS_KEY)(k) == StatusPart(hd)(k)
  {
    StoredAsStatus(k);
    hide Lower, Canonical, IsBin, WritePart;
    if Lower(k) == STATUS_METADATA {
      NotReservedNorBinary(k);
    }
    PartUnder(hd, k, STATUS_KEY, STATUS_METADATA);
  }

  /** No trailer is stored under that name: the prefix alone is longer. */
  lemma TrailersElsewhere(tl: Fields, k: string)
    ensures WritePart(tl, WRITE_PREFIX, STATUS_KEY)(k) == []
  {
    StoredAsStatus(WRITE_PREFIX + k);
    PrefixLower(k);
    hide Lower, Canonical, Encoded;
    assert |READ_PREFIX + Lower(k)| >= 15 && |STATUS_METADATA| == 13;
  }

  lemma StatusGathered(hd: Fields, order: seq<string>)
    ensures Gather(order, WritePart(hd, "", STATUS_KEY)) == StatusValues(hd, order)
  {
    hide Lower, Canonical, Encoded, WritePart, StatusPart;
    forall k | k in order ensures WritePart(hd, "", STATUS_KEY)(k) == StatusPart(hd)(k) {
      StatusPartIs(hd, k);
    }
    GatherSame(order, WritePart(hd, "", STATUS_KEY), StatusPart(hd));
  }

  lemma StatusHeld(hd: Fields, o1: seq<string>, tl: Fields, o2: seq<string>)
    requires Enumerates(o1, hd.Keys) && Enumerates(o2, tl.Keys)
    ensures Held(Sent(hd, o1, tl, o2), STATUS_KEY) == StatusValues(hd, o1)
  {
    hide Sent, Lower, Canonical, Encoded, WritePart, Held, StatusPart;
    SentAt(hd, o1, tl, o2, STATUS_KEY);
    StatusGathered(hd, o1);
    forall k | k in o2 ensures WritePart(tl, WRITE_PREFIX, STATUS_KEY)(k) == [] {
      TrailersElsewhere(tl, k);
    }
    GatherNone(o2, WritePart(tl, WRITE_PREFIX, STATUS_KEY));
    assert StatusValues(hd, o1) + [] == StatusValues(hd, o1);
  }

  /** The text names no failure: nothing before its first colon, or no 32-bit
      integer, or zero. */
  predicate Harmless(text: Bytes) {
    var code := Split(text).0;
    var n := Decimal.ParseInt(code, MIN_INT32, MAX_INT32);
    code == [] || n == None || n == Some(0)
  }

  /** A reply that means success by itself is read as one exactly when its status
      header is missing or harmless. */
  lemma NoStatusExactlyWhen(h: Fields, codec: DetailCodec, httpStatus: Bytes)
    ensures StatusOf(h, codec, CODE_OK, httpStatus) == None
       <==> (var vs := Held(h, STATUS_KEY); vs == [] || Harmless(vs[0]))
  {
    hide Held, Decimal.ParseInt, Split, DecodeDetails;
    EmptySplit();
  }

  /** A handler that returns no error is seen to succeed, the reply being one that
      means success by itself, exactly when its header metadata hold nothing under
      the status name or the first value there is harmless; whatever its trailers,
      and in every order in which the metadata are written. */
  lemma SuccessExactlyWhen(hd: Fields, o1: seq<string>, tl: Fields, o2: seq<string>, codec: DetailCodec, httpStatus: Bytes)
    requires Enumerates(o1, hd.Keys) && Enumerates(o2, tl.Keys)
    ensures StatusOf(Sent(hd, o1, tl, o2), codec, CODE_OK, httpStatus) == None
       <==> (var vs := StatusValues(hd, o1); vs == [] || Harmless(vs[0]))
  {
    hide Sent, Held, StatusValues, StatusOf, Harmless;
    StatusHeld(hd, o1, tl, o2);
    NoStatusExactlyWhen(Sent(hd, o1, tl, o2), codec, httpStatus);
  }

  lemma EmptySplit()
    ensures Split([]).0 == []
  {
  }

  /** For lower-case keys, as gRPC demands them, those are the values of one key. */
  lemma StatusValuesLower(hd: Fields, order: seq<string>)
    requires Enumerates(order, hd.Keys) && forall k :: k in hd ==> IsLower(k)
    ensures StatusValues(hd, order) == Held(hd, STATUS_METADATA)
  {
    StatusMetadataLower();
    hide Lower;
    if STATUS_METADATA in hd {
      GatherOne(order, StatusPart(hd), STATUS_METADATA);
    } else {
      GatherNone(order, StatusPart(hd));
    }
  }

  function FailureMetadata(code: Int32, message: Bytes): Fields {
    map[STATUS_METADATA := [Decimal.Print(code) + [COLON] + message]]
  }

  /** A handler that returns no error but sets the metadata x-grpc-status to a code
      other than zero is seen to have failed, with that code and message. */
  lemma SuccessReadAsFailure(code: Int32, message: Bytes, codec: DetailCodec, httpStatus: Bytes)
    requires code != CODE_OK
    ensures StatusOf(WriteKeys(map[], FailureMetadata(code, message), "", [STATUS_METADATA]), codec, CODE_OK, httpStatus)
         == Some(Stat(code, message, []))
  {
    var hd, none: Fields := FailureMetadata(code, message), map[];
    StatusMetadataLower();
    hide WriteKeys, Lower, Decimal.Print, StatusOf;
    OneKey(hd, STATUS_METADATA);
    StatusHeld(hd, [STATUS_METADATA], none, []);
    StatusValuesLower(hd, [STATUS_METADATA]);
    StoredElsewhere(STATUS_METADATA);
    NoDetails(hd, STATUS_METADATA, DETAILS_KEY);
    TextRead(WriteKeys(none, hd, "", [STATUS_METADATA]), codec, code, message, CODE_OK, httpStatus);
  }

  lemma OneKey(hd: Fields, k: string)
    requires hd.Keys == {k}
    ensures var none: Fields := map[];
            && Enumerates([k], hd.Keys) && Enumerates([], none.Keys)
            && Sent(hd, [k], none, []) == WriteKeys(none, hd, "", [k])
  {
    hide WriteKey;
  }

  lemma StoredElsewhere(k: string)
    ensures Lower(k) == STATUS_METADATA ==> Canonical(k) != DETAILS_KEY
  {
    StoredAsStatus(k);
    hide Lower, Canonical;
    assert |STATUS_KEY| != |DETAILS_KEY|;
  }

  lemma NoDetails(hd: Fields, k: string, key: string)
    requires hd.Keys == {k} && Canonical(k) != key
    ensures Held(WriteKeys(map[], hd, "", [k]), key) == []
  {
    hide Lower, Canonical, Encoded, WriteKeys;
    WrittenAt(map[], hd, "", [k], key);
    assert "" + k == k;
    GatherNone([k], WritePart(hd, "", key));
  }
}
