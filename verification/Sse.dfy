/** Server-sent events, the alternative framing for JSON messages: each message is
    one event, and the trailer is an event of its own type. */
module Sse {
  import opened Prelude
  import opened Framing

  const LF: Byte := 10
  const CR: Byte := 13
  const DATA: Bytes := [100, 97, 116, 97, 58, 32]                  // "data: "
  const EVENT: Bytes := [101, 118, 101, 110, 116, 58, 32]          // "event: "
  const MESSAGE: Bytes := [109, 101, 115, 115, 97, 103, 101]       // "message"
  const TRAILER: Bytes := [116, 114, 97, 105, 108, 101, 114]       // "trailer"

  /** The two fields that are supported. */
  datatype Event = Event(typ: Bytes, data: Bytes)

  datatype EventResult = Decoded(ev: Event) | NoEvent(err: ReadError)

  // ----- Encoding -----

  function EncodeEvent(e: Event): Bytes {
    if e.typ == [] || e.typ == MESSAGE then DATA + e.data + [LF, LF]
    else EVENT + e.typ + [LF] + DATA + e.data + [LF, LF]
  }

  function EncodeEvents(es: seq<Event>): Bytes {
    if es == [] then [] else EncodeEvent(es[0]) + EncodeEvents(es[1..])
  }

  // ----- Decoding -----

  /** Where the first line ends: the index of its line feed, or the length. */
  function LineEnd(b: Bytes): (n: nat)
    ensures n <= |b| && LF !in b[..n] && (n < |b| ==> b[n] == LF)
  {
    if b == [] || b[0] == LF then 0
    else
      assert b == [b[0]] + b[1..];
      1 + LineEnd(b[1..])
  }

  function TrimRight(b: Bytes): (r: Bytes)
    ensures r <= b && (r != [] ==> r[|r| - 1] != LF && r[|r| - 1] != CR)
  {
    if b != [] && b[|b| - 1] in {LF, CR} then TrimRight(b[..|b| - 1]) else b
  }

  function Finish(e: Event): Event {
    if e.typ == [] then e.(typ := MESSAGE) else e
  }

  /** What one line does to the event being built: None if the line is malformed. */
  function Extend(cur: Option<Event>, line: Bytes): Option<Event>
    requires line != []
  {
    if DATA <= line then
      Some(if cur.None? then Event([], line[|DATA|..])
           else cur.value.(data := cur.value.data + line[|DATA|..]))
    else if EVENT <= line then
      Some(Event(line[|EVENT|..], if cur.None? then [] else cur.value.data))
    else None
  }

  /** One call of Decode with cur built so far: its result and what is left to read. */
  function DecodeEvent(b: Bytes, cur: Option<Event>): (r: (EventResult, Bytes))
    ensures |r.1| <= |b|
    ensures r.0.Decoded? && cur.None? ==> |r.1| < |b|
    decreases |b|
  {
    var n := LineEnd(b);
    if n == |b| then
      if TrimRight(b) != [] then (NoEvent(Truncated), [])
      else if cur.Some? then (Decoded(Finish(cur.value)), [])
      else (NoEvent(EndOfInput), [])
    else
      var line, rest := TrimRight(b[..n + 1]), b[n + 1..];
      if line == [] then
        if cur.Some? then (Decoded(Finish(cur.value)), rest) else DecodeEvent(rest, None)
      else
        match Extend(cur, line)
        case None => (NoEvent(Malformed), rest)
        case Some(e) => DecodeEvent(rest, Some(e))
  }

  /** Decoding to the first error. */
  function DecodeEvents(b: Bytes): (seq<Event>, ReadError)
    decreases |b|
  {
    var (r, rest) := DecodeEvent(b, None);
    match r
    case NoEvent(e) => ([], e)
    case Decoded(ev) => var (evs, e) := DecodeEvents(rest); ([ev] + evs, e)
  }

  class Decoder {
    var rest: Bytes

    constructor (b: Bytes)
      ensures rest == b
    {
      rest := b;
    }

    /** ReadBytes: a line with its line feed, or what is left and the end of input. */
    method ReadLine() returns (line: Bytes, eof: bool)
      modifies this
      ensures eof <==> LineEnd(old(rest)) == |old(rest)|
      ensures eof ==> line == old(rest) && rest == []
      ensures !eof ==> line + rest == old(rest) && |line| == LineEnd(old(rest)) + 1
    {
      var n := 0;
      ghost var all := rest;
      while n < |rest| && rest[n] != LF
        invariant n <= |rest| && LF !in rest[..n]
        invariant rest == all
      {
        n := n + 1;
      }
      LineEndAt(rest, n);
      eof := n == |rest|;
      if eof {
        line, rest := rest, [];
      } else {
        line, rest := rest[..n + 1], rest[n + 1..];
      }
    }

    /** The next event, lines being collected until a blank one ends it. */
    method Decode() returns (r: EventResult)
      modifies this
      ensures (r, rest) == DecodeEvent(old(rest), None)
    {
      var current: Option<Event> := None;
      while true
        invariant DecodeEvent(old(rest), None) == DecodeEvent(rest, current)
        decreases |rest|
      {
        ghost var before := rest;
        var line, eof := ReadLine();
        assert !eof ==> before[..|line|] == line && before[|line|..] == rest;
        line := TrimRight(line);
        if eof {
          if |line| != 0 {
            return NoEvent(Truncated);
          }
          if current.Some? {
            return Decoded(if current.value.typ == [] then current.value.(typ := MESSAGE) else current.value);
          }
          return NoEvent(EndOfInput);
        }
        if DATA <= line {
          var payload := line[|DATA|..];
          if current.None? {
            current := Some(Event([], payload));
          } else {
            current := Some(current.value.(data := current.value.data + payload));
          }
        } else if EVENT <= line {
          if current.None? {
            current := Some(Event([], []));
          }
          current := Some(current.value.(typ := line[|EVENT|..]));
        } else if |line| == 0 {
          if current.Some? {
            return Decoded(if current.value.typ == [] then current.value.(typ := MESSAGE) else current.value);
          }
        } else {
          return NoEvent(Malformed);
        }
      }
    }
  }

  /** The first line ends at the only place that has no line feed before it. */
  lemma {:induction false} LineEndAt(b: Bytes, n: nat)
    requires n <= |b| && LF !in b[..n] && (n < |b| ==> b[n] == LF)
    ensures LineEnd(b) == n
  {
    if n > 0 {
      assert b[0] in b[..n];
      assert b[1..][..n - 1] == b[1..n];
      assert forall x :: x in b[1..n] ==> x in b[..n];
      LineEndAt(b[1..], n - 1);
    }
  }

  // ----- Round trip -----

  /** A field that fits on a line and keeps its end when the line is trimmed. */
  predicate CleanField(f: Bytes) {
    LF !in f && (f != [] ==> f[|f| - 1] != CR)
  }

  predicate Clean(e: Event) {
    CleanField(e.typ) && CleanField(e.data)
  }

  lemma TrimKeeps(b: Bytes)
    requires b != [] ==> b[|b| - 1] != LF && b[|b| - 1] != CR
    ensures TrimRight(b + [LF]) == b
  {
    assert (b + [LF])[..|b|] == b;
  }

  /** One line of the encoding is one step of the decoder. */
  lemma LineDecodes(line: Bytes, rest: Bytes, cur: Option<Event>)
    requires line != [] && CleanField(line) && Extend(cur, line).Some?
    ensures DecodeEvent(line + [LF] + rest, cur) == DecodeEvent(rest, Extend(cur, line))
  {
    var b := line + [LF] + rest;
    assert b[..|line|] == line;
    LineEndAt(b, |line|);
    assert b[..|line| + 1] == line + [LF];
    assert b[|line| + 1..] == rest;
    TrimKeeps(line);
    hide Extend, LineEnd, TrimRight;
  }

  lemma BlankEnds(rest: Bytes, e: Event)
    ensures DecodeEvent([LF] + rest, Some(e)) == (Decoded(Finish(e)), rest)
  {
    var b := [LF] + rest;
    assert b[..0] == [];
    LineEndAt(b, 0);
    assert b[..1] == [LF] && b[1..] == rest;
    TrimKeeps([]);
    assert [] + [LF] == [LF];
    hide Finish, LineEnd, TrimRight;
  }

  lemma FieldLine(name: Bytes, f: Bytes)
    requires CleanField(f) && name != [] && LF !in name && name[|name| - 1] != CR
    ensures CleanField(name + f)
  {
  }

  /** ASCII text as bytes. */
  function Text(s: string): Bytes {
    seq(|s|, i requires 0 <= i < |s| => s[i] as int % 256)
  }

  /** An event on the wire. */
  lemma EventText(e: Event)
    ensures EncodeEvent(e)
         == (if e.typ == [] || e.typ == Text("message") then [] else Text("event: ") + e.typ + [10])
            + Text("data: ") + e.data + [10, 10]
    ensures TRAILER == Text("trailer")
  {
    assert Text("message") == MESSAGE && Text("event: ") == EVENT && Text("data: ") == DATA;
    hide Text;
    var tail := DATA + e.data + [LF, LF];
    assert [] + tail == tail;
    assert EVENT + e.typ + [LF] + DATA + e.data + [LF, LF] == (EVENT + e.typ + [LF]) + DATA + e.data + [LF, LF];
  }

  /** A line of neither field is an error, whatever was read before it. */
  lemma MalformedLine(line: Bytes, rest: Bytes, cur: Option<Event>)
    requires line != [] && CleanField(line) && !(Text("data: ") <= line) && !(Text("event: ") <= line)
    ensures DecodeEvent(line + [LF] + rest, cur) == (NoEvent(Malformed), rest)
  {
    assert Text("event: ") == EVENT && Text("data: ") == DATA;
    var b := line + [LF] + rest;
    assert b[..|line|] == line;
    LineEndAt(b, |line|);
    assert b[..|line| + 1] == line + [LF];
    assert b[|line| + 1..] == rest;
    TrimKeeps(line);
    hide LineEnd, TrimRight;
  }

  lemma DataLine(f: Bytes, cur: Option<Event>)
    ensures Extend(cur, DATA + f) == Some(if cur.None? then Event([], f) else cur.value.(data := cur.value.data + f))
  {
    assert (DATA + f)[|DATA|..] == f;
  }

  lemma EventLine(f: Bytes, cur: Option<Event>)
    ensures Extend(cur, EVENT + f) == Some(Event(f, if cur.None? then [] else cur.value.data))
  {
    assert (EVENT + f)[|EVENT|..] == f;
    assert (EVENT + f)[0] != DATA[0];
  }

  lemma FinishIs(e: Event)
    ensures Finish(e) == Event(if e.typ == [] then Text("message") else e.typ, e.data)
  {
    assert Text("message") == MESSAGE;
  }

  /** A clean event is read back, whatever follows; no type reads as "message". */
  lemma EventRoundTrip(e: Event, rest: Bytes)
    requires Clean(e)
    ensures DecodeEvent(EncodeEvent(e) + rest, None) == (Decoded(Finish(e)), rest)
    ensures Finish(e) == Event(if e.typ == [] then Text("message") else e.typ, e.data)
  {
    FinishIs(e);
    FieldLine(DATA, e.data);
    var tail := [LF] + rest;
    if e.typ == [] || e.typ == MESSAGE {
      assert EncodeEvent(e) + rest == DATA + e.data + [LF] + tail;
      DataLine(e.data, None);
      LineDecodes(DATA + e.data, tail, None);
      BlankEnds(rest, Event([], e.data));
    } else {
      FieldLine(EVENT, e.typ);
      var dataLine := DATA + e.data + [LF] + tail;
      assert EncodeEvent(e) + rest == EVENT + e.typ + [LF] + dataLine;
      EventLine(e.typ, None);
      LineDecodes(EVENT + e.typ, dataLine, None);
      DataLine(e.data, Some(Event(e.typ, [])));
      LineDecodes(DATA + e.data, tail, Some(Event(e.typ, [])));
      assert [] + e.data == e.data;
      BlankEnds(rest, e);
    }
    hide DecodeEvent, Extend, CleanField;
  }

  lemma ExtendClean(cur: Option<Event>, line: Bytes)
    requires line != [] && CleanField(line) && (cur.Some? ==> Clean(cur.value))
    ensures Extend(cur, line).Some? ==> Clean(Extend(cur, line).value)
  {
    if DATA <= line {
      var f := line[|DATA|..];
      assert forall x :: x in f ==> x in line;
      assert f != [] ==> f[|f| - 1] == line[|line| - 1];
    } else if EVENT <= line {
      var f := line[|EVENT|..];
      assert forall x :: x in f ==> x in line;
      assert f != [] ==> f[|f| - 1] == line[|line| - 1];
    }
  }

  lemma TrimDrops(b: Bytes)
    ensures TrimRight(b + [LF]) == TrimRight(b)
  {
    assert (b + [LF])[..|b|] == b;
  }

  lemma TrimmedIsClean(b: Bytes)
    requires LF !in b
    ensures CleanField(TrimRight(b))
  {
    var r := TrimRight(b);
    hide TrimRight;
    assert forall i :: 0 <= i < |r| ==> r[i] == b[i];
  }

  lemma LineIsClean(b: Bytes, n: nat, line: Bytes)
    requires n < |b| && LF !in b[..n] && b[n] == LF && line == b[..n + 1]
    ensures CleanField(TrimRight(line))
  {
    hide TrimRight, CleanField;
    var l := b[..n];
    assert line == l + [LF];
    TrimDrops(l);
    TrimmedIsClean(l);
  }

  /** Whatever is decoded, of any input, is clean and has a type. */
  lemma {:induction false} DecodedIsClean(b: Bytes, cur: Option<Event>)
    requires cur.Some? ==> Clean(cur.value)
    ensures var r := DecodeEvent(b, cur).0;
            r.Decoded? ==> Clean(r.ev) && r.ev.typ != []
    decreases |b|
  {
    var n := LineEnd(b);
    if n < |b| {
      var line, rest := TrimRight(b[..n + 1]), b[n + 1..];
      LineIsClean(b, n, b[..n + 1]);
      if line == [] {
        if cur.None? {
          DecodedIsClean(rest, None);
        }
      } else {
        ExtendClean(cur, line);
        var next := Extend(cur, line);
        hide Extend, CleanField, TrimRight, LineEnd;
        if next.Some? {
          DecodedIsClean(rest, next);
        }
      }
    }
  }

  function Finished(es: seq<Event>): seq<Event> {
    seq(|es|, i requires 0 <= i < |es| => Finish(es[i]))
  }

  lemma {:induction false} EventsRoundTrip(es: seq<Event>)
    requires forall e :: e in es ==> Clean(e)
    ensures DecodeEvents(EncodeEvents(es)) == (Finished(es), EndOfInput)
  {
    hide EncodeEvent, Clean, Finish;
    if es == [] {
      EmptyInput();
      assert Finished(es) == [];
    } else {
      EventRoundTrip(es[0], EncodeEvents(es[1..]));
      EventsRoundTrip(es[1..]);
      assert Finished(es) == [Finish(es[0])] + Finished(es[1..]);
      hide DecodeEvent, Finished;
    }
  }

  lemma EmptyInput()
    ensures DecodeEvent([], None) == (NoEvent(EndOfInput), [])
  {
  }

  lemma {:induction false} AllDecodedAreClean(b: Bytes)
    ensures forall e :: e in DecodeEvents(b).0 ==> Clean(e)
    decreases |b|
  {
    DecodedIsClean(b, None);
    var (r, rest) := DecodeEvent(b, None);
    hide DecodeEvent, Clean;
    if r.Decoded? {
      AllDecodedAreClean(rest);
    }
  }

  lemma FinishedClean(e: Event)
    ensures Clean(Finish(e)) <==> Clean(e)
  {
  }

  /** Decoding the concatenated encodings gives the same events, and then the end
      of input, exactly when every event is clean. */
  lemma RoundTripExactlyWhen(es: seq<Event>)
    ensures DecodeEvents(EncodeEvents(es)) == (Finished(es), EndOfInput) <==> forall e :: e in es ==> Clean(e)
  {
    if forall e :: e in es ==> Clean(e) {
      EventsRoundTrip(es);
    } else {
      AllDecodedAreClean(EncodeEvents(es));
      hide DecodeEvents, EncodeEvents, Clean, Finish;
      var i :| 0 <= i < |es| && !Clean(es[i]);
      FinishedClean(es[i]);
      assert Finished(es)[i] == Finish(es[i]);
    }
  }

  // ----- Messages and trailers -----

  /** newSSEWriter. */
  function EventFor(m: StreamMsg): Event {
    Event(if m.isTrailer then TRAILER else [], m.data)
  }

  /** newSSEReader. */
  function MsgOf(e: Event): StreamMsg {
    StreamMsg(e.data, e.typ == TRAILER)
  }

  function EventsFor(ms: seq<StreamMsg>): seq<Event> {
    seq(|ms|, i requires 0 <= i < |ms| => EventFor(ms[i]))
  }

  function MsgsOf(es: seq<Event>): seq<StreamMsg> {
    seq(|es|, i requires 0 <= i < |es| => MsgOf(es[i]))
  }

  /** Through the event framing a message keeps its bytes, and is a trailer exactly
      if it was written as one, if and only if its bytes stay on one line. */
  lemma MessagesExactlyWhen(ms: seq<StreamMsg>)
    ensures var (es, e) := DecodeEvents(EncodeEvents(EventsFor(ms)));
            (MsgsOf(es) == ms && e == EndOfInput) <==> forall i :: 0 <= i < |ms| ==> CleanField(ms[i].data)
  {
    var evs := EventsFor(ms);
    var (es, e) := DecodeEvents(EncodeEvents(evs));
    if forall i :: 0 <= i < |ms| ==> CleanField(ms[i].data) {
      forall i | 0 <= i < |evs| ensures Clean(evs[i]) {
        assert CleanField(ms[i].data);
      }
      EventsRoundTrip(evs);
      forall i | 0 <= i < |ms| ensures MsgOf(Finished(evs)[i]) == ms[i] {
        assert Finished(evs)[i] == Finish(EventFor(ms[i]));
      }
    } else {
      AllDecodedAreClean(EncodeEvents(evs));
      hide DecodeEvents, EncodeEvents, CleanField;
      forall i | 0 <= i < |es| ensures CleanField(MsgsOf(es)[i].data) {
        assert es[i] in es && Clean(es[i]);
      }
    }
  }

  // ----- Bodies -----

  /** Everything the reader loop gets out of an event-stream body. */
  function ParseEvents(b: Bytes): Body
    decreases |b|
  {
    var (r, rest) := DecodeEvent(b, None);
    match r
    case NoEvent(e) => Body([], Broken(Unexpected(e)))
    case Decoded(ev) =>
      var m := MsgOf(ev);
      if m.isTrailer then Body([], TrailerEnd(m.data))
      else
        var p := ParseEvents(rest);
        Body([m.data] + p.frames, p.end)
  }

  /** The body a server writes: the messages, then the trailer. */
  function EventWire(msgs: seq<Bytes>, trailer: Bytes): Bytes {
    if msgs == [] then EncodeEvent(Event(TRAILER, trailer))
    else EncodeEvent(Event([], msgs[0])) + EventWire(msgs[1..], trailer)
  }

  ghost predicate OneLine(msgs: seq<Bytes>) {
    forall m :: m in msgs ==> CleanField(m)
  }

  lemma ParseAfterEvent(m: Bytes, tail: Bytes)
    requires CleanField(m)
    ensures ParseEvents(EncodeEvent(Event([], m)) + tail)
         == Body([m] + ParseEvents(tail).frames, ParseEvents(tail).end)
  {
    EventRoundTrip(Event([], m), tail);
    assert MESSAGE != TRAILER;
    hide DecodeEvent, EncodeEvent;
  }

  lemma ParseTrailerEvent(t: Bytes)
    requires CleanField(t)
    ensures ParseEvents(EncodeEvent(Event(TRAILER, t))) == Body([], TrailerEnd(t))
  {
    EventRoundTrip(Event(TRAILER, t), []);
    assert EncodeEvent(Event(TRAILER, t)) + [] == EncodeEvent(Event(TRAILER, t));
    hide DecodeEvent, EncodeEvent;
  }

  /** A complete body is recovered exactly. */
  lemma {:induction false} EventWireRoundTrip(msgs: seq<Bytes>, trailer: Bytes)
    requires OneLine(msgs) && CleanField(trailer)
    ensures ParseEvents(EventWire(msgs, trailer)) == Body(msgs, TrailerEnd(trailer))
  {
    if msgs == [] {
      ParseTrailerEvent(trailer);
    } else {
      EventWireRoundTrip(msgs[1..], trailer);
      ParseAfterEvent(msgs[0], EventWire(msgs[1..], trailer));
      assert [msgs[0]] + msgs[1..] == msgs;
      hide ParseEvents, EncodeEvent;
    }
  }

  /** Input that ends inside a line is unexpected. */
  lemma PartialLine(b: Bytes, cur: Option<Event>)
    requires b != [] && LF !in b && b[0] != CR
    ensures DecodeEvent(b, cur) == (NoEvent(Truncated), [])
  {
    assert b[..|b|] == b;
    LineEndAt(b, |b|);
    TrimStart(b);
  }

  lemma {:induction false} TrimStart(b: Bytes)
    requires b != [] && b[0] != LF && b[0] != CR
    ensures TrimRight(b) != []
  {
    if b[|b| - 1] in {LF, CR} {
      TrimStart(b[..|b| - 1]);
    }
  }

  lemma LastLine(line: Bytes, cur: Option<Event>)
    requires line != [] && CleanField(line) && Extend(cur, line).Some?
    ensures DecodeEvent(line + [LF], cur) == (Decoded(Finish(Extend(cur, line).value)), [])
  {
    var next := Extend(cur, line);
    LineDecodes(line, [], cur);
    assert line + [LF] + [] == line + [LF];
    hide Extend, Finish, CleanField;
    assert DecodeEvent([], next) == (Decoded(Finish(next.value)), []);
  }

  /** A message event that was cut off: gone, or whole but for its blank line. */
  lemma CutMessage(m: Bytes, k: nat)
    requires CleanField(m) && k < |EncodeEvent(Event([], m))|
    ensures var p := ParseEvents(EncodeEvent(Event([], m))[..k]);
            p.frames <= [m] && p.end == Broken(Truncated)
  {
    var line := DATA + m;
    var b := EncodeEvent(Event([], m))[..k];
    FieldLine(DATA, m);
    EmptyInput();
    assert MESSAGE != TRAILER;
    if k == 0 {
      assert b == [];
    } else if k <= |line| {
      assert b == line[..k];
      PartialLine(b, None);
      hide DecodeEvent;
    } else {
      assert b == line + [LF];
      DataLine(m, None);
      LastLine(line, None);
      hide DecodeEvent, Extend;
    }
  }

  /** How a body reads whose last `missing` bytes were cut off: whole without its very
      last line feed, with an empty trailer just after the trailer's event line, and
      truncated otherwise. */
  function CutEnd(trailer: Bytes, missing: nat): End {
    if missing == 1 then TrailerEnd(trailer)
    else if missing == |DATA| + |trailer| + 2 then TrailerEnd([])
    else Broken(Truncated)
  }

  /** A trailer event that was cut off: gone, empty, or whole but for its blank line. */
  lemma CutTrailer(t: Bytes, k: nat)
    requires CleanField(t) && k < |EncodeEvent(Event(TRAILER, t))|
    ensures var p := ParseEvents(EncodeEvent(Event(TRAILER, t))[..k]);
            p.frames == [] && p.end == CutEnd(t, |EncodeEvent(Event(TRAILER, t))| - k)
  {
    var head, line := EVENT + TRAILER, DATA + t;
    assert EncodeEvent(Event(TRAILER, t)) == head + [LF] + line + [LF, LF];
    FieldLine(EVENT, TRAILER);
    EventLine(TRAILER, None);
    CutTwoLines(head, line, k);
    hide EncodeEvent, DecodeEvent, Extend, CleanField, ParseEvents;
    if k <= |head| + 1 {
      CutHead(head, k);
    } else {
      CutTail(head, t, (line + [LF])[..k - |head| - 1], k - |head| - 1);
    }
  }

  lemma CutTail(head: Bytes, t: Bytes, rest: Bytes, k: nat)
    requires head != [] && CleanField(head) && Extend(None, head) == Some(Event(TRAILER, []))
    requires CleanField(t) && 0 < k <= |DATA + t| + 1 && rest == (DATA + t + [LF])[..k]
    ensures ParseEvents(head + [LF] + rest) == Body([], if k <= |DATA + t| then Broken(Truncated) else TrailerEnd(t))
  {
    LineDecodes(head, rest, None);
    CutTrailerData(t, rest, k);
    hide DecodeEvent, Extend, CleanField;
  }

  lemma CutTwoLines(head: Bytes, line: Bytes, k: nat)
    requires k <= |head| + |line| + 2
    ensures (head + [LF] + line + [LF, LF])[..k]
         == if k <= |head| + 1 then (head + [LF])[..k] else head + [LF] + (line + [LF])[..k - |head| - 1]
  {
  }

  lemma CutHead(head: Bytes, k: nat)
    requires head == EVENT + TRAILER && CleanField(head) && k <= |head| + 1
    requires Extend(None, head) == Some(Event(TRAILER, []))
    ensures ParseEvents((head + [LF])[..k]) == Body([], if k <= |head| then Broken(Truncated) else TrailerEnd([]))
  {
    var b := (head + [LF])[..k];
    if k == 0 {
      EmptyInput();
    } else if k <= |head| {
      assert b == head[..k];
      PartialLine(b, None);
      hide DecodeEvent;
    } else {
      assert b == head + [LF];
      LastLine(head, None);
      hide DecodeEvent, Extend;
    }
  }

  lemma CutTrailerData(t: Bytes, rest: Bytes, k: nat)
    requires CleanField(t) && 0 < k <= |DATA + t| + 1 && rest == (DATA + t + [LF])[..k]
    ensures DecodeEvent(rest, Some(Event(TRAILER, []))).0
         == if k <= |DATA + t| then NoEvent(Truncated) else Decoded(Event(TRAILER, t))
  {
    var line := DATA + t;
    FieldLine(DATA, t);
    var cur := Some(Event(TRAILER, []));
    if k <= |line| {
      assert rest == line[..k];
      PartialLine(rest, cur);
    } else {
      assert rest == line + [LF];
      DataLine(t, cur);
      assert [] + t == t;
      LastLine(line, cur);
    }
    hide DecodeEvent, Extend;
  }

  /** Every proper prefix of a complete body yields a prefix of its messages, all of
      them if a trailer is seen, and ends as the number of missing bytes says. */
  lemma {:induction false} EventTruncation(msgs: seq<Bytes>, trailer: Bytes, k: nat)
    requires OneLine(msgs) && CleanField(trailer) && k < |EventWire(msgs, trailer)|
    ensures var p := ParseEvents(EventWire(msgs, trailer)[..k]);
            && p.frames <= msgs && (p.end.TrailerEnd? ==> p.frames == msgs)
            && p.end == CutEnd(trailer, |EventWire(msgs, trailer)| - k)
  {
    hide EncodeEvent, ParseEvents, CleanField;
    if msgs == [] {
      CutTrailer(trailer, k);
    } else {
      var f, tail := EncodeEvent(Event([], msgs[0])), EventWire(msgs[1..], trailer);
      var b := EventWire(msgs, trailer)[..k];
      assert EventWire(msgs, trailer) == f + tail;
      if k < |f| {
        assert b == f[..k];
        CutMessage(msgs[0], k);
        assert [msgs[0]] <= msgs;
        WireLength(msgs[1..], trailer);
      } else {
        var j := k - |f|;
        assert b == f + tail[..j];
        EventTruncation(msgs[1..], trailer, j);
        ParseAfterEvent(msgs[0], tail[..j]);
        hide EventWire, OneLine;
        PrefixCons(msgs, ParseEvents(tail[..j]).frames);
        assert [msgs[0]] + msgs[1..] == msgs;
      }
    }
  }

  /** A cut of more than the last line feed leaves no end, or one with an empty trailer. */
  lemma NoticedCut(msgs: seq<Bytes>, trailer: Bytes, k: nat)
    requires OneLine(msgs) && CleanField(trailer) && k + 1 < |EventWire(msgs, trailer)|
    ensures var end := ParseEvents(EventWire(msgs, trailer)[..k]).end;
            end.Broken? || end == TrailerEnd([])
  {
    hide *;
    EventTruncation(msgs, trailer, k);
    CutEndNoticed(trailer, |EventWire(msgs, trailer)| - k);
  }

  lemma CutEndNoticed(trailer: Bytes, missing: nat)
    requires missing > 1
    ensures CutEnd(trailer, missing).Broken? || CutEnd(trailer, missing) == TrailerEnd([])
  {
  }

  lemma {:induction false} WireLength(msgs: seq<Bytes>, trailer: Bytes)
    ensures |EventWire(msgs, trailer)| >= |EVENT| + |TRAILER| + |DATA| + |trailer| + 3
  {
    if msgs == [] {
      assert TRAILER != MESSAGE;
    } else {
      WireLength(msgs[1..], trailer);
    }
  }

  /** Both of the cuts that are not noticed as such exist in every body. */
  lemma UnnoticedCuts(msgs: seq<Bytes>, trailer: Bytes)
    requires OneLine(msgs) && CleanField(trailer)
    ensures var wire := EventWire(msgs, trailer);
            && |wire| > |DATA| + |trailer| + 2
            && ParseEvents(wire[..|wire| - 1]) == Body(msgs, TrailerEnd(trailer))
            && ParseEvents(wire[..|wire| - (|DATA| + |trailer| + 2)]) == Body(msgs, TrailerEnd([]))
  {
    WireLength(msgs, trailer);
    var n := |EventWire(msgs, trailer)|;
    hide EventWire, ParseEvents, OneLine, CleanField;
    EventTruncation(msgs, trailer, n - 1);
    EventTruncation(msgs, trailer, n - (|DATA| + |trailer| + 2));
  }
}
