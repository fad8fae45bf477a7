/** The frames an in-process server sends to its client, and their grammar. */
module InProcFrames {
  import opened Prelude
  import opened Metadata

  datatype Frame =
    | Headers(md: MD)
    | Data(msg: Msg)
    | Trailers(tlr: MD)
    | Error(err: Err)

  /** Position of a frame kind in the grammar headers? data* trailers? error?. */
  function Rank(f: Frame): nat {
    match f
    case Headers(_) => 0
    case Data(_) => 1
    case Trailers(_) => 2
    case Error(_) => 3
  }

  /** A prefix of headers? data* trailers? error?: kinds never go backwards, and
      only data may repeat. */
  ghost predicate WellFormed(fs: seq<Frame>) {
    forall i, j :: 0 <= i < j < |fs| ==>
                     Rank(fs[i]) < Rank(fs[j]) || (fs[i].Data? && fs[j].Data?)
  }

  /** The messages carried by a list of frames, in order. */
  function Messages(fs: seq<Frame>): seq<Msg> {
    if fs == [] then []
    else
      var n := |fs| - 1;
      Messages(fs[..n]) + (if fs[n].Data? then [fs[n].msg] else [])
  }

  /** The metadata of the most recent headers frame, if there was one. */
  function OptHeaders(fs: seq<Frame>): Option<MD> {
    if fs == [] then None
    else
      var n := |fs| - 1;
      if fs[n].Headers? then Some(fs[n].md) else OptHeaders(fs[..n])
  }

  /** The metadata of the most recent trailers frame, if there was one. */
  function OptTrailers(fs: seq<Frame>): Option<MD> {
    if fs == [] then None
    else
      var n := |fs| - 1;
      if fs[n].Trailers? then Some(fs[n].tlr) else OptTrailers(fs[..n])
  }

  /** The same, a missing frame reading as no metadata. */
  function HeadersOf(fs: seq<Frame>): MD {
    var md := OptHeaders(fs);
    if md.Some? then md.value else map[]
  }

  function TrailersOf(fs: seq<Frame>): MD {
    var md := OptTrailers(fs);
    if md.Some? then md.value else map[]
  }

  lemma OptAppend(fs: seq<Frame>, f: Frame)
    ensures OptHeaders(fs + [f]) == (if f.Headers? then Some(f.md) else OptHeaders(fs))
    ensures OptTrailers(fs + [f]) == (if f.Trailers? then Some(f.tlr) else OptTrailers(fs))
  {
    assert (fs + [f])[..|fs|] == fs;
  }

  lemma AppendFrame(fs: seq<Frame>, f: Frame)
    ensures Messages(fs + [f]) == Messages(fs) + (if f.Data? then [f.msg] else [])
    ensures HeadersOf(fs + [f]) == (if f.Headers? then f.md else HeadersOf(fs))
    ensures TrailersOf(fs + [f]) == (if f.Trailers? then f.tlr else TrailersOf(fs))
  {
    OptAppend(fs, f);
    assert (fs + [f])[..|fs|] == fs;
  }

  function HeaderFrames(md: MD): (r: seq<Frame>)
    ensures |r| <= 1
  {
    if |md| > 0 then [Headers(md)] else []
  }

  function DataFrames(ms: seq<Msg>): seq<Frame> {
    seq(|ms|, i requires 0 <= i < |ms| => Data(ms[i]))
  }

  function TrailerFrames(md: MD): (r: seq<Frame>)
    ensures |r| <= 1
  {
    if |md| > 0 then [Trailers(md)] else []
  }

  function ErrorFrames(e: Option<Err>): (r: seq<Frame>)
    ensures |r| <= 1
  {
    if e.Some? then [Error(e.value)] else []
  }

  /** Everything one call sends: accumulated headers, messages, accumulated
      trailers, and the handler's error. */
  function Transcript(hdr: MD, ms: seq<Msg>, tlr: MD, e: Option<Err>): seq<Frame> {
    HeaderFrames(hdr) + DataFrames(ms) + TrailerFrames(tlr) + ErrorFrames(e)
  }

  lemma TranscriptWellFormed(hdr: MD, ms: seq<Msg>, tlr: MD, e: Option<Err>)
    ensures WellFormed(Transcript(hdr, ms, tlr, e))
  {
  }

  lemma {:induction false} DataOnly(fs: seq<Frame>, ms: seq<Msg>)
    ensures Messages(fs + DataFrames(ms)) == Messages(fs) + ms
    ensures HeadersOf(fs + DataFrames(ms)) == HeadersOf(fs)
    ensures TrailersOf(fs + DataFrames(ms)) == TrailersOf(fs)
  {
    hide Messages, HeadersOf, TrailersOf;
    if ms == [] {
      assert fs + DataFrames(ms) == fs;
      assert Messages(fs) + [] == Messages(fs);
    } else {
      var n := |ms| - 1;
      DataOnly(fs, ms[..n]);
      assert fs + DataFrames(ms) == (fs + DataFrames(ms[..n])) + [Data(ms[n])];
      AppendFrame(fs + DataFrames(ms[..n]), Data(ms[n]));
      assert ms[..n] + [ms[n]] == ms;
    }
  }

  lemma HeaderOnly(md: MD)
    ensures var fs := HeaderFrames(md);
            Messages(fs) == [] && HeadersOf(fs) == md && TrailersOf(fs) == map[]
  {
    if |md| > 0 {
      AppendFrame([], Headers(md));
      assert [] + [Headers(md)] == [Headers(md)];
    } else {
      assert md == map[];
    }
  }

  lemma ThenTrailers(fs: seq<Frame>, md: MD)
    requires TrailersOf(fs) == map[]
    ensures var gs := fs + TrailerFrames(md);
            Messages(gs) == Messages(fs) && HeadersOf(gs) == HeadersOf(fs) && TrailersOf(gs) == md
  {
    hide Messages, HeadersOf, TrailersOf;
    if |md| > 0 {
      AppendFrame(fs, Trailers(md));
    } else {
      assert md == map[];
      assert fs + [] == fs;
    }
  }

  lemma ThenError(fs: seq<Frame>, e: Option<Err>)
    ensures var gs := fs + ErrorFrames(e);
            Messages(gs) == Messages(fs) && HeadersOf(gs) == HeadersOf(fs) && TrailersOf(gs) == TrailersOf(fs)
  {
    hide Messages, HeadersOf, TrailersOf;
    if e.Some? {
      AppendFrame(fs, Error(e.value));
    } else {
      assert fs + [] == fs;
    }
  }

  /** Reading a transcript back gives exactly what was put in it. */
  lemma TranscriptContents(hdr: MD, ms: seq<Msg>, tlr: MD, e: Option<Err>)
    ensures var fs := Transcript(hdr, ms, tlr, e);
            Messages(fs) == ms && HeadersOf(fs) == hdr && TrailersOf(fs) == tlr
  {
    hide Messages, HeadersOf, TrailersOf, HeaderFrames, DataFrames, TrailerFrames, ErrorFrames;
    HeaderOnly(hdr);
    DataOnly(HeaderFrames(hdr), ms);
    assert [] + ms == ms;
    ThenTrailers(HeaderFrames(hdr) + DataFrames(ms), tlr);
    ThenError(HeaderFrames(hdr) + DataFrames(ms) + TrailerFrames(tlr), e);
  }
}
