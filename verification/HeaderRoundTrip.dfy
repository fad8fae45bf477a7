/** When metadata survives the trip through HTTP headers. */
module HeaderRoundTrip {
  import opened Prelude
  import opened Framing
  import opened HeaderMetadata

  /** The header map of a response: the headers, then the prefixed trailers. */
  function Sent(hd: Fields, o1: seq<string>, tl: Fields, o2: seq<string>): Fields
    requires (forall k :: k in o1 ==> k in hd) && (forall k :: k in o2 ==> k in tl)
  {
    WriteKeys(WriteKeys(map[], hd, "", o1), tl, WRITE_PREFIX, o2)
  }

  lemma SentAt(hd: Fields, o1: seq<string>, tl: Fields, o2: seq<string>, c: string)
    requires (forall k :: k in o1 ==> k in hd) && (forall k :: k in o2 ==> k in tl)
    ensures Held(Sent(hd, o1, tl, o2), c)
         == Gather(o1, WritePart(hd, "", c)) + Gather(o2, WritePart(tl, WRITE_PREFIX, c))
    ensures NonEmpty(Sent(hd, o1, tl, o2))
  {
    hide WriteKeys, WritePart;
    WrittenAt(map[], hd, "", o1, c);
    WrittenAt(WriteKeys(map[], hd, "", o1), tl, WRITE_PREFIX, o2, c);
    var g := Gather(o1, WritePart(hd, "", c));
    assert Held(map[], c) + g == g;
  }

  /** The name under which a key arrives. */
  function NameOf(fromTrailer: bool, k: string): string {
    if fromTrailer then READ_PREFIX + Lower(k) else Lower(k)
  }

  ghost predicate IsSource(hd: Fields, tl: Fields, c: string, fromTrailer: bool, k: string) {
    && Lower(k) !in RESERVED
    && (if fromTrailer then k in tl && c == Canonical(WRITE_PREFIX + k) else k in hd && c == Canonical("" + k))
  }

  /** Every header was written for some key. */
  lemma SourceOf(hd: Fields, o1: seq<string>, tl: Fields, o2: seq<string>, c: string)
    returns (fromTrailer: bool, k: string)
    requires Enumerates(o1, hd.Keys) && Enumerates(o2, tl.Keys) && c in Sent(hd, o1, tl, o2)
    ensures IsSource(hd, tl, c, fromTrailer, k) && Lower(c) == NameOf(fromTrailer, k)
  {
    hide Sent, Lower, Canonical, Encoded;
    SentAt(hd, o1, tl, o2, c);
    fromTrailer := Gather(o1, WritePart(hd, "", c)) == [];
    if fromTrailer {
      k := GatherSome(o2, WritePart(tl, WRITE_PREFIX, c));
      PrefixLower(k);
    } else {
      k := GatherSome(o1, WritePart(hd, "", c));
      assert "" + k == k;
    }
  }

  /** All keys lower-case, and no header named like one of the trailers: no two
      keys then arrive under the same name. */
  ghost predicate Separate(hd: Fields, tl: Fields) {
    && (forall k :: k in hd ==> IsLower(k))
    && (forall k :: k in tl ==> IsLower(k) && READ_PREFIX + k !in hd)
  }

  /** Keys of the headers contribute to their own header only. */
  lemma HeaderPart(hd: Fields, k: string, x: string)
    requires IsLower(k) && IsLower(x)
    ensures x != k ==> WritePart(hd, "", Canonical(k))(x) == []
    ensures k in hd && k !in RESERVED ==> WritePart(hd, "", Canonical(k))(k) == Encoded(k, hd[k])
  {
    hide Lower, Canonical, Encoded;
    assert "" + x == x && "" + k == k;
  }

  lemma HeaderPartElsewhere(hd: Fields, c: string, x: string)
    requires IsLower(x) && x != Lower(c)
    ensures WritePart(hd, "", c)(x) == []
  {
    hide Lower, Canonical, Encoded;
    assert "" + x == x;
  }

  /** And so do keys of the trailers. */
  lemma TrailerPart(tl: Fields, k: string, x: string)
    requires IsLower(k) && IsLower(x)
    ensures x != k ==> WritePart(tl, WRITE_PREFIX, Canonical(WRITE_PREFIX + k))(x) == []
    ensures k in tl && k !in RESERVED ==>
              WritePart(tl, WRITE_PREFIX, Canonical(WRITE_PREFIX + k))(k) == Encoded(k, tl[k])
  {
    PrefixLower(k);
    PrefixLower(x);
    PrefixInjective(x, k);
    hide Lower, Canonical, Encoded;
  }

  lemma TrailerPartElsewhere(tl: Fields, c: string, x: string)
    requires IsLower(x) && READ_PREFIX + x != Lower(c)
    ensures WritePart(tl, WRITE_PREFIX, c)(x) == []
  {
    PrefixLower(x);
    hide Lower, Canonical, Encoded;
  }

  lemma HeaderSent(hd: Fields, o1: seq<string>, tl: Fields, o2: seq<string>, k: string)
    requires Enumerates(o1, hd.Keys) && Enumerates(o2, tl.Keys) && Separate(hd, tl)
    requires k in hd && k !in RESERVED
    ensures Held(Sent(hd, o1, tl, o2), Canonical(k)) == Encoded(k, hd[k])
  {
    hide Sent, Lower, Canonical, Encoded, WritePart, Gather;
    var c := Canonical(k);
    SentAt(hd, o1, tl, o2, c);
    var f, g := WritePart(hd, "", c), WritePart(tl, WRITE_PREFIX, c);
    forall x | x in o1 && x != k ensures f(x) == [] {
      HeaderPart(hd, k, x);
    }
    GatherOne(o1, f, k);
    HeaderPart(hd, k, k);
    forall x | x in o2 ensures g(x) == [] {
      TrailerPartElsewhere(tl, c, x);
    }
    GatherNone(o2, g);
  }

  lemma TrailerSent(hd: Fields, o1: seq<string>, tl: Fields, o2: seq<string>, k: string)
    requires Enumerates(o1, hd.Keys) && Enumerates(o2, tl.Keys) && Separate(hd, tl)
    requires k in tl && k !in RESERVED
    ensures Held(Sent(hd, o1, tl, o2), Canonical(WRITE_PREFIX + k)) == Encoded(k, tl[k])
  {
    PrefixLower(k);
    hide Sent, Lower, Canonical, Encoded, WritePart, Gather;
    var c := Canonical(WRITE_PREFIX + k);
    SentAt(hd, o1, tl, o2, c);
    var f, g := WritePart(hd, "", c), WritePart(tl, WRITE_PREFIX, c);
    forall x | x in o1 ensures f(x) == [] {
      HeaderPartElsewhere(hd, c, x);
    }
    GatherNone(o1, f);
    forall x | x in o2 && x != k ensures g(x) == [] {
      TrailerPart(tl, k, x);
    }
    GatherOne(o2, g, k);
    TrailerPart(tl, k, k);
  }

  /** The names on the wire: a header's own, and a trailer's after a prefix. */
  lemma NamesOnTheWire(hd: Fields, o1: seq<string>, tl: Fields, o2: seq<string>, k: string)
    requires Enumerates(o1, hd.Keys) && Enumerates(o2, tl.Keys) && Separate(hd, tl) && k !in RESERVED
    ensures k in hd ==> Held(Sent(hd, o1, tl, o2), Canonical(k)) == Encoded(k, hd[k])
    ensures k in tl ==> Held(Sent(hd, o1, tl, o2), Canonical("X-GRPC-Trailer-" + k)) == Encoded(k, tl[k])
  {
    hide Sent, Lower, Canonical, Encoded, Separate, Held;
    if k in hd {
      HeaderSent(hd, o1, tl, o2, k);
    }
    if k in tl {
      TrailerSent(hd, o1, tl, o2, k);
    }
  }

  lemma PrefixInjective(x: string, y: string)
    ensures READ_PREFIX + x == READ_PREFIX + y ==> x == y
  {
    assert (READ_PREFIX + x)[|READ_PREFIX|..] == x;
    assert (READ_PREFIX + y)[|READ_PREFIX|..] == y;
  }

  lemma NamesDiffer(hd: Fields, tl: Fields, c: string, t: bool, k: string, c': string, t': bool, k': string)
    requires Separate(hd, tl) && IsSource(hd, tl, c, t, k) && IsSource(hd, tl, c', t', k')
    requires NameOf(t, k) == NameOf(t', k')
    ensures c == c'
  {
    hide Lower, Canonical;
    PrefixInjective(k, k');
  }

  // ----- Reading -----

  /** Under the name of a header, exactly its values are read. */
  lemma ReadUnder(hd: Fields, o1: seq<string>, tl: Fields, o2: seq<string>, o: seq<string>, c: string)
    requires Enumerates(o1, hd.Keys) && Enumerates(o2, tl.Keys) && Separate(hd, tl)
    requires Enumerates(o, Sent(hd, o1, tl, o2).Keys) && c in Sent(hd, o1, tl, o2)
    requires ReadKeys(Sent(hd, o1, tl, o2), o).Some?
    ensures var h := Sent(hd, o1, tl, o2);
            Some(Held(ReadKeys(h, o).value, Lower(c))) == Decoded(Lower(c), h[c])
  {
    hide Sent, Lower, Decoded, ReadKeys, IsSource, NameOf, Separate;
    var h := Sent(hd, o1, tl, o2);
    ReadAt(h, o, Lower(c));
    var f := ReadPart(h, Lower(c));
    var t, k := SourceOf(hd, o1, tl, o2, c);
    forall x | x in o && x != c ensures f(x) == [] {
      var t', k' := SourceOf(hd, o1, tl, o2, x);
      if Lower(x) == Lower(c) {
        NamesDiffer(hd, tl, c, t, k, x, t', k');
      }
    }
    GatherOne(o, f, c);
  }

  /** What is read was written for some key. */
  lemma ReadFrom(hd: Fields, o1: seq<string>, tl: Fields, o2: seq<string>, o: seq<string>, l: string)
    returns (c: string, t: bool, k: string)
    requires Enumerates(o1, hd.Keys) && Enumerates(o2, tl.Keys)
    requires Enumerates(o, Sent(hd, o1, tl, o2).Keys) && ReadKeys(Sent(hd, o1, tl, o2), o).Some?
    requires Held(ReadKeys(Sent(hd, o1, tl, o2), o).value, l) != []
    ensures IsSource(hd, tl, c, t, k) && l == Lower(c) == NameOf(t, k) && IsLower(l)
  {
    hide Sent, Lower, Decoded, ReadKeys, IsSource, NameOf;
    var h := Sent(hd, o1, tl, o2);
    ReadAt(h, o, l);
    c := GatherSome(o, ReadPart(h, l));
    t, k := SourceOf(hd, o1, tl, o2, c);
    LowerTwice(c);
  }

  /** A trailer's name is binary if its key is, and also for the key "bin". */
  lemma BinarySuffix(k: string)
    requires IsLower(k)
    ensures IsBin(READ_PREFIX + k) <==> IsBin(k) || k == "bin"
  {
    PrefixLower(k);
    var p := READ_PREFIX + k;
    hide Lower;
    assert Lower(p) == p && Lower(k) == k;
    if |k| >= 4 {
      assert p[|p| - 4..] == k[|k| - 4..];
    } else {
      var s := p[|p| - 4..];
      assert |k| == 3 ==> s == "-" + k;
      assert |k| == 2 ==> s[0] == 'r';
      assert |k| == 1 ==> s[0] == 'e';
      assert |k| == 0 ==> s[0] == 'l';
      assert ("-" + k)[1..] == k && "-bin"[1..] == "bin";
    }
  }

  ghost predicate CleanTrailer(k: string, vs: seq<Bytes>) {
    k == "bin" ==> forall v :: v in vs ==> v == []
  }

  /** A trailer's values come through its name exactly if the key is not "bin" or
      the values are all empty. */
  lemma TrailerValues(k: string, vs: seq<Bytes>)
    requires IsLower(k)
    ensures Decoded(READ_PREFIX + k, Encoded(k, vs)) == Some(vs) <==> CleanTrailer(k, vs)
  {
    BinarySuffix(k);
    ValuesRoundTrip(k, vs);
    UnencodedValues(vs);
    assert !IsBin("bin");
    hide IsBin, DecodeAll, Lower;
  }

  // ----- The round trip -----

  ghost predicate CleanHeaders(hd: Fields) {
    forall k :: k in hd ==> IsLower(k) && k !in RESERVED && hd[k] != [] && !IsTrailerName(k)
  }

  ghost predicate CleanTrailers(tl: Fields) {
    forall k :: k in tl ==> IsLower(k) && k !in RESERVED && tl[k] != [] && k != "" && CleanTrailer(k, tl[k])
  }

  lemma CleanIsSeparate(hd: Fields, tl: Fields)
    requires CleanHeaders(hd) && CleanTrailers(tl)
    ensures Separate(hd, tl)
  {
    hide Lower;
    assert forall k :: k in tl ==> IsTrailerName(READ_PREFIX + k);
  }

  /** Both maps are recovered. */
  ghost predicate Recovered(hd: Fields, tl: Fields, md: Option<Fields>) {
    SplitRead(md) == Some((hd, tl))
  }

  lemma ArrivesAs(hd: Fields, o1: seq<string>, tl: Fields, o2: seq<string>, c: string)
    requires Enumerates(o1, hd.Keys) && Enumerates(o2, tl.Keys)
    requires CleanHeaders(hd) && CleanTrailers(tl) && c in Sent(hd, o1, tl, o2)
    ensures Decoded(Lower(c), Sent(hd, o1, tl, o2)[c]).Some?
  {
    CleanIsSeparate(hd, tl);
    hide Sent, Lower, Canonical, Encoded, Decoded;
    var t, k := SourceOf(hd, o1, tl, o2, c);
    if t {
      TrailerSent(hd, o1, tl, o2, k);
      TrailerValues(k, tl[k]);
    } else {
      assert "" + k == k;
      HeaderSent(hd, o1, tl, o2, k);
      ValuesRoundTrip(k, hd[k]);
    }
  }

  lemma HeaderArrives(hd: Fields, o1: seq<string>, tl: Fields, o2: seq<string>, o: seq<string>, l: string)
    requires Enumerates(o1, hd.Keys) && Enumerates(o2, tl.Keys) && Enumerates(o, Sent(hd, o1, tl, o2).Keys)
    requires CleanHeaders(hd) && CleanTrailers(tl) && ReadKeys(Sent(hd, o1, tl, o2), o).Some?
    requires !IsTrailerName(l)
    ensures Held(ReadKeys(Sent(hd, o1, tl, o2), o).value, l) == Held(hd, l)
  {
    CleanIsSeparate(hd, tl);
    hide Sent, Lower, Canonical, Encoded, Decoded, ReadKeys, IsTrailerName, CleanTrailer;
    if l in hd {
      HeaderSent(hd, o1, tl, o2, l);
      ReadUnder(hd, o1, tl, o2, o, Canonical(l));
      ValuesRoundTrip(l, hd[l]);
    } else if Held(ReadKeys(Sent(hd, o1, tl, o2), o).value, l) != [] {
      var c, t, k := ReadFrom(hd, o1, tl, o2, o, l);
      NotAHeader(k);
    }
  }

  lemma NotAHeader(k: string)
    ensures IsLower(k) && k != "" ==> IsTrailerName(READ_PREFIX + Lower(k))
  {
  }

  lemma TrailerArrives(hd: Fields, o1: seq<string>, tl: Fields, o2: seq<string>, o: seq<string>, k: string)
    requires Enumerates(o1, hd.Keys) && Enumerates(o2, tl.Keys) && Enumerates(o, Sent(hd, o1, tl, o2).Keys)
    requires CleanHeaders(hd) && CleanTrailers(tl) && ReadKeys(Sent(hd, o1, tl, o2), o).Some?
    requires k != ""
    ensures Held(ReadKeys(Sent(hd, o1, tl, o2), o).value, READ_PREFIX + k) == Held(tl, k)
  {
    CleanIsSeparate(hd, tl);
    hide Sent, Lower, Canonical, Encoded, Decoded, ReadKeys, CleanTrailer;
    PrefixLower(k);
    if k in tl {
      TrailerSent(hd, o1, tl, o2, k);
      ReadUnder(hd, o1, tl, o2, o, Canonical(WRITE_PREFIX + k));
      TrailerValues(k, tl[k]);
    } else if Held(ReadKeys(Sent(hd, o1, tl, o2), o).value, READ_PREFIX + k) != [] {
      var c, t, x := ReadFrom(hd, o1, tl, o2, o, READ_PREFIX + k);
      PrefixInjective(x, k);
    }
  }

  lemma CleanRecovers(hd: Fields, o1: seq<string>, tl: Fields, o2: seq<string>, o: seq<string>)
    requires Enumerates(o1, hd.Keys) && Enumerates(o2, tl.Keys) && Enumerates(o, Sent(hd, o1, tl, o2).Keys)
    requires CleanHeaders(hd) && CleanTrailers(tl)
    ensures Recovered(hd, tl, ReadKeys(Sent(hd, o1, tl, o2), o))
  {
    hide Sent, Lower, Canonical, Encoded, Decoded, ReadKeys, CleanTrailer;
    var h := Sent(hd, o1, tl, o2);
    forall c | c in o ensures Decoded(Lower(c), h[c]).Some? {
      ArrivesAs(hd, o1, tl, o2, c);
    }
    ReadAt(h, o, "");
    var md := ReadKeys(h, o).value;
    forall k ensures Held(HeadersOf(md), k) == Held(hd, k) {
      if !IsTrailerName(k) {
        HeaderArrives(hd, o1, tl, o2, o, k);
      }
    }
    SameFields(HeadersOf(md), hd);
    forall k ensures Held(TrailersOf(md), k) == Held(tl, k) {
      TrailersOfAt(md, k);
      if k != "" {
        TrailerArrives(hd, o1, tl, o2, o, k);
      }
    }
    TrailersOfAt(md, "");
    SameFields(TrailersOf(md), tl);
  }

  /** What is recovered was lower-case, not empty, and told apart. */
  lemma RecoveredSeparate(hd: Fields, o1: seq<string>, tl: Fields, o2: seq<string>, o: seq<string>)
    requires Enumerates(o1, hd.Keys) && Enumerates(o2, tl.Keys) && Enumerates(o, Sent(hd, o1, tl, o2).Keys)
    requires Recovered(hd, tl, ReadKeys(Sent(hd, o1, tl, o2), o))
    ensures Separate(hd, tl) && NonEmpty(hd) && NonEmpty(tl)
    ensures forall k :: k in hd ==> !IsTrailerName(k)
    ensures forall k :: k in tl ==> k != ""
  {
    hide Sent, Lower, ReadKeys, TrailersOf, IsSource;
    var md := ReadKeys(Sent(hd, o1, tl, o2), o).value;
    ReadAt(Sent(hd, o1, tl, o2), o, "");
    TrailersOfAt(md, "");
    forall k | k in hd ensures IsLower(k) && !IsTrailerName(k) {
      var c, t, x := ReadFrom(hd, o1, tl, o2, o, k);
    }
    forall k | k in tl ensures IsLower(k) && k != "" {
      TrailersOfAt(md, k);
      var c, t, x := ReadFrom(hd, o1, tl, o2, o, READ_PREFIX + k);
      PrefixLower(k);
    }
  }

  lemma RecoveredHeader(hd: Fields, o1: seq<string>, tl: Fields, o2: seq<string>, o: seq<string>, k: string)
    requires Enumerates(o1, hd.Keys) && Enumerates(o2, tl.Keys) && Enumerates(o, Sent(hd, o1, tl, o2).Keys)
    requires Recovered(hd, tl, ReadKeys(Sent(hd, o1, tl, o2), o))
    requires Separate(hd, tl) && NonEmpty(hd) && k in hd && forall x :: x in tl ==> x != ""
    ensures k !in RESERVED
  {
    hide Sent, Lower, ReadKeys, TrailersOf, Canonical;
    var c, t, x := ReadFrom(hd, o1, tl, o2, o, k);
    NotAHeader(x);
  }

  lemma RecoveredTrailer(hd: Fields, o1: seq<string>, tl: Fields, o2: seq<string>, o: seq<string>, k: string)
    requires Enumerates(o1, hd.Keys) && Enumerates(o2, tl.Keys) && Enumerates(o, Sent(hd, o1, tl, o2).Keys)
    requires Recovered(hd, tl, ReadKeys(Sent(hd, o1, tl, o2), o))
    requires Separate(hd, tl) && NonEmpty(tl) && k in tl && k != ""
    ensures k !in RESERVED && CleanTrailer(k, tl[k])
  {
    hide Sent, Lower, ReadKeys, TrailersOf, Canonical, Encoded, Decoded, CleanTrailer, HeadersOf;
    var h := Sent(hd, o1, tl, o2);
    var md := ReadKeys(h, o).value;
    ReadAt(h, o, "");
    TrailersOfAt(md, k);
    var c, t, x := ReadFrom(hd, o1, tl, o2, o, READ_PREFIX + k);
    PrefixInjective(x, k);
    assert IsTrailerName(READ_PREFIX + k);
    assert t && x == k;
    TrailerSent(hd, o1, tl, o2, k);
    ReadUnder(hd, o1, tl, o2, o, c);
    TrailerValues(k, tl[k]);
  }

  /** Writing headers and prefixed trailers into one header map and splitting them
      again recovers both maps, values in order and binary ones included, whatever
      the order in which any of the maps was iterated, exactly when: keys are
      lower-case and not reserved and hold at least one value, no header key starts
      with the trailer prefix (and goes on), no trailer key is empty, and a trailer
      key "bin" holds empty values only. */
  lemma RecoveredExactlyWhen(hd: Fields, o1: seq<string>, tl: Fields, o2: seq<string>, o: seq<string>)
    requires Enumerates(o1, hd.Keys) && Enumerates(o2, tl.Keys) && Enumerates(o, Sent(hd, o1, tl, o2).Keys)
    ensures Recovered(hd, tl, ReadKeys(Sent(hd, o1, tl, o2), o)) <==> CleanHeaders(hd) && CleanTrailers(tl)
  {
    hide Sent, Lower, ReadKeys, CleanTrailer, Recovered, IsTrailerName;
    if CleanHeaders(hd) && CleanTrailers(tl) {
      CleanRecovers(hd, o1, tl, o2, o);
    }
    if Recovered(hd, tl, ReadKeys(Sent(hd, o1, tl, o2), o)) {
      RecoveredSeparate(hd, o1, tl, o2, o);
      forall k | k in hd ensures k !in RESERVED {
        RecoveredHeader(hd, o1, tl, o2, o, k);
      }
      forall k | k in tl ensures k !in RESERVED && CleanTrailer(k, tl[k]) {
        RecoveredTrailer(hd, o1, tl, o2, o, k);
      }
    }
  }

  // ----- Requests -----

  ghost predicate CleanRequest(md: Fields) {
    forall k :: k in md ==> IsLower(k) && k !in RESERVED && md[k] != []
  }

  lemma RequestArrives(md: Fields, o1: seq<string>, o: seq<string>)
    requires Enumerates(o1, md.Keys) && Enumerates(o, Sent(md, o1, map[], []).Keys) && CleanRequest(md)
    ensures ReadKeys(Sent(md, o1, map[], []), o) == Some(md)
  {
    hide Sent, Lower, Canonical, Encoded, Decoded, ReadKeys;
    var h := Sent(md, o1, map[], []);
    forall c | c in o ensures Decoded(Lower(c), h[c]).Some? {
      var t, k := SourceOf(md, o1, map[], [], c);
      assert "" + k == k;
      HeaderSent(md, o1, map[], [], k);
      ValuesRoundTrip(k, md[k]);
    }
    ReadAt(h, o, "");
    var r := ReadKeys(h, o).value;
    forall l ensures Held(r, l) == Held(md, l) {
      if l in md {
        HeaderSent(md, o1, map[], [], l);
        ReadUnder(md, o1, map[], [], o, Canonical(l));
        ValuesRoundTrip(l, md[l]);
      } else if Held(r, l) != [] {
        var c, t, k := ReadFrom(md, o1, map[], [], o, l);
      }
    }
    SameFields(r, md);
  }

  /** Request metadata arrives as it was sent, whatever the order of iteration,
      exactly when its keys are lower-case, not reserved and hold some value. */
  lemma RequestExactlyWhen(md: Fields, o1: seq<string>, o: seq<string>)
    requires Enumerates(o1, md.Keys) && Enumerates(o, WriteKeys(map[], md, "", o1).Keys)
    ensures ReadKeys(WriteKeys(map[], md, "", o1), o) == Some(md) <==> CleanRequest(md)
  {
    assert Sent(md, o1, map[], []) == WriteKeys(map[], md, "", o1);
    hide Sent, WriteKeys, Lower, ReadKeys;
    if CleanRequest(md) {
      RequestArrives(md, o1, o);
    }
    if ReadKeys(WriteKeys(map[], md, "", o1), o) == Some(md) {
      ReadAt(Sent(md, o1, map[], []), o, "");
      forall k | k in md ensures IsLower(k) && k !in RESERVED {
        var c, t, x := ReadFrom(md, o1, map[], [], o, k);
      }
    }
  }
}
