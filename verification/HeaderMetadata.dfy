/** Call metadata as HTTP headers: what the sender's headers and prefixed trailers
    become in one header map, and what the receiver makes of that map. Values are
    bytes here, because binary ones travel in base64. */
module HeaderMetadata {
  import opened Prelude
  import opened Framing
  import Base64

  /** Metadata, and equally a header map, from names to lists of values. */
  type Fields = map<string, seq<Bytes>>

  const RESERVED: set<string> := {
    "accept-encoding", "connection", "content-type", "content-length", "keep-alive",
    "te", "trailer", "transfer-encoding", "upgrade"
  }

  const WRITE_PREFIX := "X-GRPC-Trailer-"
  const READ_PREFIX := "x-grpc-trailer-"

  // ----- Names -----

  function LowerChar(c: char): char {
    if 'A' <= c <= 'Z' then (c as int + 32) as char else c
  }

  function UpperChar(c: char): char {
    if 'a' <= c <= 'z' then (c as int - 32) as char else c
  }

  function Lower(k: string): (r: string)
    ensures |r| == |k|
    ensures forall i :: 0 <= i < |k| ==> r[i] == LowerChar(k[i])
  {
    if k == "" then "" else [LowerChar(k[0])] + Lower(k[1..])
  }

  predicate IsLower(k: string) {
    Lower(k) == k
  }

  /** The bytes allowed in a header name. */
  predicate IsToken(c: char) {
    'a' <= c <= 'z' || 'A' <= c <= 'Z' || '0' <= c <= '9' || c in "!#$%&'*+-.^_`|~"
  }

  function Capitalize(k: string, upper: bool): (r: string)
    ensures Lower(r) == Lower(k)
  {
    if k == "" then ""
    else
      var c := if upper then UpperChar(k[0]) else LowerChar(k[0]);
      var r := [c] + Capitalize(k[1..], k[0] == '-');
      assert r[1..] == Capitalize(k[1..], k[0] == '-');
      r
  }

  /** The form in which http.Header stores a name; anything else than a token is
      left as it is. */
  function Canonical(k: string): (r: string)
    ensures Lower(r) == Lower(k)
  {
    if forall c :: c in k ==> IsToken(c) then Capitalize(k, true) else k
  }

  lemma {:induction false} LowerConcat(a: string, b: string)
    ensures Lower(a + b) == Lower(a) + Lower(b)
  {
    assert forall i :: 0 <= i < |a + b| ==> Lower(a + b)[i] == (Lower(a) + Lower(b))[i];
  }

  lemma LowerTwice(k: string)
    ensures IsLower(Lower(k))
  {
    assert forall i :: 0 <= i < |k| ==> Lower(Lower(k))[i] == Lower(k)[i];
  }

  lemma PrefixesAgree(a: string, b: string)
    requires |a| == |b| && forall i :: 0 <= i < |a| ==> LowerChar(a[i]) == b[i]
    ensures Lower(a) == b
  {
  }

  /** The header name of a trailer, as read. */
  lemma PrefixLower(k: string)
    ensures Lower(WRITE_PREFIX + k) == READ_PREFIX + Lower(k)
    ensures IsLower(READ_PREFIX + k) <==> IsLower(k)
  {
    hide Lower;
    LowerConcat(WRITE_PREFIX, k);
    LowerConcat(READ_PREFIX, k);
    PrefixesAgree(WRITE_PREFIX, READ_PREFIX);
    PrefixesAgree(READ_PREFIX, READ_PREFIX);
    assert (READ_PREFIX + Lower(k))[|READ_PREFIX|..] == Lower(k);
    assert (READ_PREFIX + k)[|READ_PREFIX|..] == k;
  }

  predicate IsBin(k: string) {
    |k| >= 4 && Lower(k)[|k| - 4..] == "-bin"
  }

  // ----- Values -----

  function Encoded(k: string, vs: seq<Bytes>): (r: seq<Bytes>)
    ensures |r| == |vs|
  {
    if IsBin(k) then seq(|vs|, i requires 0 <= i < |vs| => Base64.Encode(vs[i], true)) else vs
  }

  function DecodeAll(vs: seq<Bytes>): (r: Option<seq<Bytes>>)
    ensures r.Some? ==> |r.value| == |vs|
  {
    if vs == [] then Some([])
    else
      var n := |vs| - 1;
      var front, last := DecodeAll(vs[..n]), Base64.Decode(vs[n], true);
      if front.None? || last.None? then None else Some(front.value + [last.value])
  }

  function Decoded(k: string, vs: seq<Bytes>): (r: Option<seq<Bytes>>)
    ensures r.Some? ==> |r.value| == |vs|
  {
    if IsBin(k) then DecodeAll(vs) else Some(vs)
  }

  lemma {:induction false} DecodeAllAt(vs: seq<Bytes>, r: seq<Bytes>)
    requires |r| == |vs|
    ensures DecodeAll(vs) == Some(r) <==> forall i :: 0 <= i < |vs| ==> Base64.Decode(vs[i], true) == Some(r[i])
  {
    if vs == [] {
      assert r == [];
    } else {
      hide DecodeAll, Base64.Decode;
      var n := |vs| - 1;
      DecodeAllAt(vs[..n], r[..n]);
      DecodeAllLast(vs, r);
      assert forall i :: 0 <= i < n ==> vs[..n][i] == vs[i] && r[..n][i] == r[i];
    }
  }

  lemma DecodeAllLast(vs: seq<Bytes>, r: seq<Bytes>)
    requires |r| == |vs| > 0
    ensures var n := |vs| - 1;
            DecodeAll(vs) == Some(r) <==> DecodeAll(vs[..n]) == Some(r[..n]) && Base64.Decode(vs[n], true) == Some(r[n])
  {
    hide Base64.Decode;
    var n := |vs| - 1;
    var front, last := DecodeAll(vs[..n]), Base64.Decode(vs[n], true);
    if front.Some? && last.Some? {
      SnocEqual(front.value, last.value, r);
    }
  }

  lemma SnocEqual(a: seq<Bytes>, x: Bytes, r: seq<Bytes>)
    requires |r| == |a| + 1
    ensures a + [x] == r <==> a == r[..|a|] && x == r[|a|]
  {
    assert (a + [x])[..|a|] == a && (a + [x])[|a|] == x;
    assert r == r[..|a|] + [r[|a|]];
  }

  lemma ValuesRoundTrip(k: string, vs: seq<Bytes>)
    ensures Decoded(k, Encoded(k, vs)) == Some(vs)
  {
    if IsBin(k) {
      forall i | 0 <= i < |vs| ensures Base64.Decode(Encoded(k, vs)[i], true) == Some(vs[i]) {
        Base64.RoundTrip(vs[i], true);
      }
      DecodeAllAt(Encoded(k, vs), vs);
    }
  }

  /** Decoding what was not encoded changes any value but the empty one. */
  lemma UnencodedValues(vs: seq<Bytes>)
    ensures DecodeAll(vs) == Some(vs) <==> forall v :: v in vs ==> v == []
  {
    DecodeAllAt(vs, vs);
    assert forall i :: 0 <= i < |vs| ==> vs[i] in vs;
  }

  // ----- Header maps -----

  function Held(m: Fields, k: string): seq<Bytes> {
    if k in m then m[k] else []
  }

  function AddAll(m: Fields, k: string, vs: seq<Bytes>): Fields {
    if vs == [] then m else m[k := Held(m, k) + vs]
  }

  ghost predicate NonEmpty(m: Fields) {
    forall k :: k in m ==> m[k] != []
  }

  ghost predicate Enumerates(order: seq<string>, keys: set<string>) {
    && (forall k :: k in order <==> k in keys)
    && (forall i, j :: 0 <= i < j < |order| ==> order[i] != order[j])
  }

  lemma SameFields(a: Fields, b: Fields)
    requires NonEmpty(a) && NonEmpty(b)
    requires forall k :: Held(a, k) == Held(b, k)
    ensures a == b
  {
    assert forall k :: k in a <==> Held(a, k) != [];
    assert forall k :: k in b <==> Held(b, k) != [];
    assert a.Keys == b.Keys;
    assert forall k :: k in a ==> a[k] == Held(a, k) == Held(b, k) == b[k];
  }

  /** Concatenation over a list of names. */
  function Gather(order: seq<string>, f: string -> seq<Bytes>): seq<Bytes> {
    if order == [] then []
    else
      var n := |order| - 1;
      Gather(order[..n], f) + f(order[n])
  }

  lemma {:induction false} GatherNone(order: seq<string>, f: string -> seq<Bytes>)
    requires forall k :: k in order ==> f(k) == []
    ensures Gather(order, f) == []
  {
    if order != [] {
      GatherNone(order[..|order| - 1], f);
    }
  }

  lemma {:induction false} GatherOne(order: seq<string>, f: string -> seq<Bytes>, k: string)
    requires k in order
    requires forall i, j :: 0 <= i < j < |order| ==> order[i] != order[j]
    requires forall x :: x in order && x != k ==> f(x) == []
    ensures Gather(order, f) == f(k)
  {
    var n := |order| - 1;
    var front := order[..n];
    assert forall x :: x in front ==> x in order;
    if order[n] == k {
      assert forall x :: x in front ==> x != k;
      GatherNone(front, f);
    } else {
      assert order == front + [order[n]];
      assert k in front;
      assert f(order[n]) == [];
      GatherOne(front, f, k);
    }
  }

  lemma {:induction false} GatherSome(order: seq<string>, f: string -> seq<Bytes>) returns (k: string)
    requires Gather(order, f) != []
    ensures k in order && f(k) != []
  {
    var n := |order| - 1;
    if f(order[n]) != [] {
      k := order[n];
    } else {
      k := GatherSome(order[..n], f);
    }
  }

  // ----- Writing -----

  function WriteKey(h: Fields, md: Fields, prefix: string, k: string): Fields
    requires k in md
  {
    if Lower(k) in RESERVED then h else AddAll(h, Canonical(prefix + k), Encoded(k, md[k]))
  }

  function WriteKeys(h: Fields, md: Fields, prefix: string, order: seq<string>): Fields
    requires forall k :: k in order ==> k in md
  {
    if order == [] then h
    else
      var n := |order| - 1;
      WriteKey(WriteKeys(h, md, prefix, order[..n]), md, prefix, order[n])
  }

  class Header {
    var fields: Fields

    constructor ()
      ensures fields == map[]
    {
      fields := map[];
    }

    method Add(k: string, v: Bytes)
      modifies this
      ensures fields == AddAll(old(fields), Canonical(k), [v])
    {
      var c := Canonical(k);
      fields := fields[c := Held(fields, c) + [v]];
    }

    /** The values of one key, encoded if the key says so. */
    method AddValues(k: string, prefix: string, vs: seq<Bytes>)
      modifies this
      ensures fields == AddAll(old(fields), Canonical(prefix + k), Encoded(k, vs))
    {
      hide Canonical, Lower, Base64.Encode, AddAll;
      AddNone(fields, Canonical(prefix + k));
      var lowerK := Lower(k);
      var isBin := |k| >= 4 && lowerK[|k| - 4..] == "-bin";
      ghost var before := fields;
      for i := 0 to |vs|
        invariant fields == AddAll(before, Canonical(prefix + k), Encoded(k, vs)[..i])
      {
        var v := if isBin then Base64.Encode(vs[i], true) else vs[i];
        AddAllMore(before, Canonical(prefix + k), Encoded(k, vs)[..i], v);
        assert Encoded(k, vs)[..i + 1] == Encoded(k, vs)[..i] + [v];
        Add(prefix + k, v);
      }
      assert Encoded(k, vs)[..|vs|] == Encoded(k, vs);
    }

    /** toHeaders: the keys in whatever order the map yields them. */
    method ToHeaders(md: Fields, prefix: string) returns (ghost order: seq<string>)
      modifies this
      ensures Enumerates(order, md.Keys)
      ensures fields == WriteKeys(old(fields), md, prefix, order)
    {
      hide Canonical, Lower, Encoded, AddAll;
      order := [];
      var todo := md.Keys;
      while todo != {}
        invariant todo <= md.Keys
        invariant Enumerates(order, md.Keys - todo)
        invariant fields == WriteKeys(old(fields), md, prefix, order)
        decreases |todo|
      {
        var k :| k in todo;
        if Lower(k) !in RESERVED {
          AddValues(k, prefix, md[k]);
        }
        assert (order + [k])[..|order|] == order;
        order := order + [k];
        todo := todo - {k};
      }
    }
  }

  lemma AddNone(m: Fields, k: string)
    ensures AddAll(m, k, []) == m
  {
  }

  lemma AddAllMore(m: Fields, k: string, vs: seq<Bytes>, v: Bytes)
    ensures AddAll(AddAll(m, k, vs), k, [v]) == AddAll(m, k, vs + [v])
  {
    assert Held(m, k) + [] == Held(m, k);
    assert Held(m, k) + (vs + [v]) == Held(m, k) + vs + [v];
  }

  /** What one key contributes to the header named c. */
  function WritePart(md: Fields, prefix: string, c: string): string -> seq<Bytes> {
    k => if k in md && Lower(k) !in RESERVED && Canonical(prefix + k) == c then Encoded(k, md[k]) else []
  }

  lemma KeyWrittenAt(h: Fields, md: Fields, prefix: string, k: string, c: string)
    requires k in md
    ensures Held(WriteKey(h, md, prefix, k), c) == Held(h, c) + WritePart(md, prefix, c)(k)
    ensures NonEmpty(h) ==> NonEmpty(WriteKey(h, md, prefix, k))
  {
    hide Lower, Canonical, Encoded;
    assert Held(h, c) + [] == Held(h, c);
  }

  lemma {:induction false} WrittenAt(h: Fields, md: Fields, prefix: string, order: seq<string>, c: string)
    requires forall k :: k in order ==> k in md
    ensures Held(WriteKeys(h, md, prefix, order), c) == Held(h, c) + Gather(order, WritePart(md, prefix, c))
    ensures NonEmpty(h) ==> NonEmpty(WriteKeys(h, md, prefix, order))
  {
    hide Held, NonEmpty, WriteKey, WritePart;
    if order == [] {
      assert Held(h, c) + [] == Held(h, c);
    } else {
      var n := |order| - 1;
      WrittenAt(h, md, prefix, order[..n], c);
      KeyWrittenAt(WriteKeys(h, md, prefix, order[..n]), md, prefix, order[n], c);
    }
  }

  /** The names that metadata cannot set. */
  predicate NotForMetadata(l: string) {
    || l == "accept-encoding" || l == "connection" || l == "content-type" || l == "content-length"
    || l == "keep-alive" || l == "te" || l == "trailer" || l == "transfer-encoding" || l == "upgrade"
  }

  /** toHeaders adds nothing for those names, whatever their case and the prefix, and
      adds the values of every other key. */
  lemma SkippedExactlyWhen(h: Fields, md: Fields, prefix: string, k: string)
    requires k in md
    ensures NotForMetadata(Lower(k)) ==> WriteKey(h, md, prefix, k) == h
    ensures !NotForMetadata(Lower(k)) ==>
              WriteKey(h, md, prefix, k) == AddAll(h, Canonical(prefix + k), Encoded(k, md[k]))
  {
    hide Lower, Canonical, Encoded, AddAll;
  }

  /** So nothing that is written for metadata under no prefix reaches a header of such
      a name. */
  lemma {:induction false} NothingUnderReserved(h: Fields, md: Fields, order: seq<string>, c: string)
    requires (forall k :: k in order ==> k in md) && NotForMetadata(Lower(c))
    ensures Held(WriteKeys(h, md, "", order), c) == Held(h, c)
  {
    hide Lower, Canonical, Encoded, Held, WriteKey, NotForMetadata;
    if order != [] {
      var n := |order| - 1;
      NothingUnderReserved(h, md, order[..n], c);
      NoKeyUnderReserved(WriteKeys(h, md, "", order[..n]), md, order[n], c);
    }
  }

  lemma NoKeyUnderReserved(h: Fields, md: Fields, k: string, c: string)
    requires k in md && NotForMetadata(Lower(c))
    ensures Held(WriteKey(h, md, "", k), c) == Held(h, c)
  {
    SkippedExactlyWhen(h, md, "", k);
    hide Lower, Canonical, Encoded, WriteKey, NotForMetadata;
    assert "" + k == k;
    assert Canonical(k) == c ==> Lower(c) == Lower(k);
  }

  /** Values are in base64 exactly under names that end in "-bin", in any case. */
  lemma BinaryExactlyWhen(k: string, v: Bytes)
    ensures IsBin(k) <==> exists p :: Lower(k) == p + "-bin"
    ensures Encoded(k, [v]) == [if IsBin(k) then Base64.Encode(v, true) else v]
  {
    hide Lower, Base64.Encode;
    var l := Lower(k);
    if IsBin(k) {
      assert l == l[..|l| - 4] + "-bin";
    }
    if p :| l == p + "-bin" {
      assert l[|l| - 4..] == "-bin";
    }
  }

  /** Several maps of metadata, each with the order in which its keys were written. */
  ghost predicate EnumerateAll(orders: seq<seq<string>>, mds: seq<Fields>) {
    && |orders| == |mds|
    && forall i :: 0 <= i < |mds| ==> Enumerates(orders[i], mds[i].Keys)
  }

  /** A header map to which they were added one after the other. */
  ghost function WriteAll(h: Fields, mds: seq<Fields>, orders: seq<seq<string>>): Fields
    requires EnumerateAll(orders, mds)
  {
    if mds == [] then h
    else
      var n := |mds| - 1;
      WriteKeys(WriteAll(h, mds[..n], orders[..n]), mds[n], "", orders[n])
  }

  // ----- Reading -----

  function ReadKey(md: Fields, h: Fields, c: string): Option<Fields>
    requires c in h
  {
    var vs := Decoded(Lower(c), h[c]);
    if vs.None? then None else Some(AddAll(md, Lower(c), vs.value))
  }

  /** asMetadata, header by header; a value that does not decode fails it. */
  function ReadKeys(h: Fields, order: seq<string>): Option<Fields>
    requires forall c :: c in order ==> c in h
  {
    if order == [] then Some(map[])
    else
      var n := |order| - 1;
      var md := ReadKeys(h, order[..n]);
      if md.None? then None else ReadKey(md.value, h, order[n])
  }

  function ReadPart(h: Fields, l: string): string -> seq<Bytes> {
    c => if c in h && Lower(c) == l && Decoded(l, h[c]).Some? then Decoded(l, h[c]).value else []
  }

  lemma KeyReadAt(md: Fields, h: Fields, c: string, l: string)
    requires c in h
    ensures ReadKey(md, h, c).Some? <==> Decoded(Lower(c), h[c]).Some?
    ensures ReadKey(md, h, c).Some? ==> Held(ReadKey(md, h, c).value, l) == Held(md, l) + ReadPart(h, l)(c)
    ensures ReadKey(md, h, c).Some? && NonEmpty(md) ==> NonEmpty(ReadKey(md, h, c).value)
  {
    hide Lower, Decoded;
    assert Held(md, l) + [] == Held(md, l);
  }

  ghost predicate AllDecode(h: Fields, order: seq<string>)
    requires forall c :: c in order ==> c in h
  {
    forall c :: c in order ==> Decoded(Lower(c), h[c]).Some?
  }

  lemma AllDecodeMore(h: Fields, order: seq<string>)
    requires order != [] && forall c :: c in order ==> c in h
    ensures var n := |order| - 1;
            AllDecode(h, order) <==> AllDecode(h, order[..n]) && Decoded(Lower(order[n]), h[order[n]]).Some?
  {
    hide Lower, Decoded;
    var n := |order| - 1;
    assert order == order[..n] + [order[n]];
    assert forall c :: c in order <==> c in order[..n] || c == order[n];
  }

  lemma {:induction false} ReadAt(h: Fields, order: seq<string>, l: string)
    requires forall c :: c in order ==> c in h
    ensures ReadKeys(h, order).Some? <==> AllDecode(h, order)
    ensures ReadKeys(h, order).Some? ==>
              && Held(ReadKeys(h, order).value, l) == Gather(order, ReadPart(h, l))
              && NonEmpty(ReadKeys(h, order).value)
  {
    if order == [] {
    } else {
      hide Held, NonEmpty, ReadKey, ReadPart, AllDecode, Decoded, Lower;
      var n := |order| - 1;
      ReadAt(h, order[..n], l);
      AllDecodeMore(h, order);
      var md := ReadKeys(h, order[..n]);
      if md.Some? {
        KeyReadAt(md.value, h, order[n], l);
      }
    }
  }

  /** The part of the metadata read that is trailers, and the part that is headers. */
  predicate IsTrailerName(l: string) {
    READ_PREFIX <= l && |l| > |READ_PREFIX|
  }

  function HeadersOf(md: Fields): Fields {
    map l | l in md && !IsTrailerName(l) :: md[l]
  }

  function TrailersOf(md: Fields): Fields {
    map k | k in (set l | l in md && IsTrailerName(l) :: l[|READ_PREFIX|..]) :: Held(md, READ_PREFIX + k)
  }

  lemma TrailersOfAt(md: Fields, k: string)
    requires NonEmpty(md)
    ensures Held(TrailersOf(md), k) == if k == "" then [] else Held(md, READ_PREFIX + k)
    ensures NonEmpty(TrailersOf(md))
  {
    forall x ensures x in TrailersOf(md) <==> x != "" && READ_PREFIX + x in md {
      if x != "" && READ_PREFIX + x in md {
        assert IsTrailerName(READ_PREFIX + x) && (READ_PREFIX + x)[|READ_PREFIX|..] == x;
      }
      if x in TrailersOf(md) {
        var l :| l in md && IsTrailerName(l) && l[|READ_PREFIX|..] == x;
        assert l == READ_PREFIX + x;
      }
    }
  }

  /** The values of one header, decoded if its name says so. */
  method DecodeValues(k: string, vs: seq<Bytes>) returns (r: Option<seq<Bytes>>)
    ensures r == Decoded(k, vs)
  {
    hide Base64.Decode;
    var isBin := IsBin(k);
    var out: seq<Bytes> := [];
    for i := 0 to |vs|
      invariant isBin ==> DecodeAll(vs[..i]) == Some(out)
      invariant !isBin ==> out == vs[..i]
    {
      var v := vs[i];
      assert vs[..i + 1][..i] == vs[..i];
      if isBin {
        var vv := Base64.Decode(v, true);
        if vv.None? {
          FailureStays(vs, i + 1);
          return None;
        }
        v := vv.value;
      }
      out := out + [v];
    }
    assert vs[..|vs|] == vs;
    return Some(out);
  }

  lemma {:induction false} FailureStays(vs: seq<Bytes>, i: nat)
    requires i <= |vs| && DecodeAll(vs[..i]).None?
    ensures DecodeAll(vs).None?
    decreases |vs| - i
  {
    if i == |vs| {
      assert vs[..i] == vs;
    } else {
      assert vs[..i + 1][..i] == vs[..i];
      FailureStays(vs, i + 1);
    }
  }

  /** asMetadata: the headers in whatever order the map yields them. */
  method AsMetadata(h: Fields) returns (r: Option<Fields>)
    ensures exists order :: Enumerates(order, h.Keys) && r == ReadKeys(h, order)
  {
    hide Lower, Decoded, AddAll;
    ghost var order := [];
    r := Some(map[]);
    var todo := h.Keys;
    while todo != {}
      invariant todo <= h.Keys
      invariant Enumerates(order, h.Keys - todo)
      invariant r == ReadKeys(h, order)
      decreases |todo|
    {
      var c :| c in todo;
      assert (order + [c])[..|order|] == order;
      order := order + [c];
      todo := todo - {c};
      if r.Some? {
        var k := Lower(c);
        var vs := DecodeValues(k, h[c]);
        r := if vs.None? then None else Some(AddAll(r.value, k, vs.value));
      }
    }
  }

  function SplitRead(md: Option<Fields>): Option<(Fields, Fields)> {
    if md.None? then None else Some((HeadersOf(md.value), TrailersOf(md.value)))
  }

  /** setMetadata: trailers are moved out of the headers, one by one. */
  method SetMetadata(h: Fields) returns (r: Option<(Fields, Fields)>)
    ensures exists order :: Enumerates(order, h.Keys) && r == SplitRead(ReadKeys(h, order))
  {
    var md := AsMetadata(h);
    if md.None? {
      return None;
    }
    var all := md.value;
    var hdr, tlr := all, map[];
    var todo := all.Keys;
    while todo != {}
      invariant todo <= all.Keys
      invariant hdr.Keys == set l | l in all && (l in todo || !IsTrailerName(l))
      invariant forall l :: l in hdr ==> hdr[l] == all[l]
      invariant forall k :: k in tlr <==> READ_PREFIX + k in all && k != "" && READ_PREFIX + k !in todo
      invariant forall k :: k in tlr ==> tlr[k] == all[READ_PREFIX + k]
      decreases |todo|
    {
      var k :| k in todo;
      todo := todo - {k};
      if READ_PREFIX <= k {
        var trailerName := k[|READ_PREFIX|..];
        assert k == READ_PREFIX + trailerName;
        if trailerName != "" {
          tlr := tlr[trailerName := all[k]];
          hdr := hdr - {k};
        }
      }
    }
    TrailersOfKeys(all, tlr);
    assert hdr == HeadersOf(all);
    return Some((hdr, tlr));
  }

  lemma TrailersOfKeys(md: Fields, tlr: Fields)
    requires forall k :: k in tlr <==> READ_PREFIX + k in md && k != ""
    requires forall k :: k in tlr ==> tlr[k] == md[READ_PREFIX + k]
    ensures tlr == TrailersOf(md)
  {
    forall x ensures x in TrailersOf(md) <==> x in tlr {
      if x in tlr {
        assert IsTrailerName(READ_PREFIX + x) && (READ_PREFIX + x)[|READ_PREFIX|..] == x;
      }
      if x in TrailersOf(md) {
        var l :| l in md && IsTrailerName(l) && l[|READ_PREFIX|..] == x;
        assert l == READ_PREFIX + x;
      }
    }
  }
}
