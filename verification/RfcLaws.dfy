/** The incremental decoder delivers what RFC 6455 says the frames mean. */
module RfcLaws {
  import opened Seqs
  import opened Wrappers
  import opened Frames
  import opened FrameLaws
  import opened Rfc6455

  /** The receiving state at a frame boundary, with message `sofar` begun. */
  predicate AtBoundary(rx: Rx, sofar: Option<Message>) {
    && !rx.dead
    && rx.dec == Boundary(if sofar.Some? then Some(sofar.value.kind) else None)
    && rx.partial == (if sofar.Some? && sofar.value.kind.Text? then sofar.value.data else [])
  }

  function Grown(f: Frame, sofar: Option<Message>): Message {
    var begun := if sofar.Some? then sofar.value else Message(f.kind, []);
    begun.(data := begun.data + f.payload)
  }

  function SofarAfter(f: Frame, sofar: Option<Message>): Option<Message> {
    if IsControl(f.kind) then sofar else if f.fin then None else Some(Grown(f, sofar))
  }

  /** The message still open at the end of the frames. */
  function SofarEnd(fs: seq<Frame>, sofar: Option<Message>): Option<Message> {
    if fs == [] then sofar else SofarEnd(fs[1..], SofarAfter(fs[0], sofar))
  }

  function OpenKind(sofar: Option<Message>): Option<Kind> {
    if sofar.Some? then Some(sofar.value.kind) else None
  }

  /** What one frame adds to the delivered texts. */
  function TextIn(f: Frame, sofar: Option<Message>): seq<Bytes> {
    if !IsControl(f.kind) && f.fin && Grown(f, sofar).kind.Text? then [Grown(f, sofar).data] else []
  }

  function PingIn(f: Frame): seq<Bytes> {
    if f.kind.Ping? then [f.payload] else []
  }

  /** A read with a whole frame at the front of the buffer. */
  lemma ReadFrame(parse: HeaderParser, f: Frame, rest: Bytes, raw: Bytes, open: Option<Kind>)
    requires SelfDelimiting(parse) && Framed(parse, f)
    requires open.Some? ==> IsMessage(open.value)
    requires !IsControl(f.kind) ==> (f.kind.Continuation? <==> open.Some?)
    requires raw == f.head + f.payload + rest
    ensures raw != [] && |f.head + f.payload| <= |raw| && raw[|f.head + f.payload|..] == rest
    ensures Read(parse, Boundary(open), raw, |raw|) ==
      if IsControl(f.kind) then Delivered(Boundary(open), |f.head + f.payload|, f.kind, f.payload, true)
      else
        var kind := if open.Some? then open.value else f.kind;
        Delivered(Boundary(if f.fin then None else Some(kind)), |f.head + f.payload|, kind, f.payload, f.fin)
  {
    assert raw == f.head + (f.payload + rest);
    assert parse(f.head).Parsed? && parse(raw) == parse(f.head);
    assert raw[|f.head|..|f.head| + |f.payload|] == f.payload;
  }

  /** One whole frame at the front of the buffer is consumed by one step. */
  lemma StepFrame(parse: HeaderParser, f: Frame, rest: Bytes, rx: Rx, sofar: Option<Message>)
    requires SelfDelimiting(parse) && Framed(parse, f) && !f.kind.Close?
    requires sofar.Some? ==> IsMessage(sofar.value.kind)
    requires !IsControl(f.kind) ==> (f.kind.Continuation? <==> sofar.Some?)
    requires AtBoundary(rx, sofar) && rx.raw == f.head + f.payload + rest
    ensures CanStep(parse, rx)
    ensures var next := Step(parse, rx, |rx.raw|);
      && AtBoundary(next, SofarAfter(f, sofar)) && next.raw == rest
      && next.texts == rx.texts + TextIn(f, sofar)
      && next.pings == rx.pings + PingIn(f)
  {
    hide Read, Framed, SelfDelimiting;
    ReadFrame(parse, f, rest, rx.raw, OpenKind(sofar));
  }

  /** Decoding the bytes of a legal sequence of whole frames delivers exactly
      the text messages and the pings that the frames carry. */
  lemma {:induction false} FramesDecode(parse: HeaderParser, fs: seq<Frame>, rx: Rx, sofar: Option<Message>)
    requires SelfDelimiting(parse)
    requires sofar.Some? ==> IsMessage(sofar.value.kind)
    requires Legal(parse, fs, OpenKind(sofar)) && AtBoundary(rx, sofar) && rx.raw == Wire(fs)
    ensures var r := Drain(parse, rx);
      && AtBoundary(r, SofarEnd(fs, sofar)) && r.raw == []
      && r.texts == rx.texts + TextsAmong(Messages(DataFrames(fs), sofar))
      && r.pings == rx.pings + PingPayloads(fs)
    decreases |fs|
  {
    if fs == [] {
    } else {
      var f, rest := fs[0], fs[1..];
      StepFrame(parse, f, Wire(rest), rx, sofar);
      var next := Step(parse, rx, |rx.raw|);
      FramesDecode(parse, rest, next, SofarAfter(f, sofar));
      MessagesStep(fs, sofar);
      Regroup(rx.texts, TextIn(f, sofar), TextsAmong(Messages(DataFrames(rest), SofarAfter(f, sofar))));
      Regroup(rx.pings, PingIn(f), PingPayloads(rest));
    }
  }

  lemma MessagesStep(fs: seq<Frame>, sofar: Option<Message>)
    requires fs != []
    ensures TextsAmong(Messages(DataFrames(fs), sofar))
         == TextIn(fs[0], sofar) + TextsAmong(Messages(DataFrames(fs[1..]), SofarAfter(fs[0], sofar)))
    ensures PingPayloads(fs) == PingIn(fs[0]) + PingPayloads(fs[1..])
  {
    var f, more := fs[0], DataFrames(fs[1..]);
    if !IsControl(f.kind) {
      assert DataFrames(fs) == [f] + more;
      assert ([f] + more)[1..] == more;
      if f.fin {
        var ms := Messages(more, None);
        assert Messages(DataFrames(fs), sofar) == [Grown(f, sofar)] + ms;
        assert ([Grown(f, sofar)] + ms)[1..] == ms;
      }
    }
  }

  // ── any chunking ───────────────────────────────────────────────────────

  function Joined(chunks: seq<Bytes>): Bytes {
    if chunks == [] then [] else Joined(chunks[..|chunks| - 1]) + chunks[|chunks| - 1]
  }

  /** The receiving state after the bytes have arrived in these chunks, with
      everything decoded after each. */
  function Fed(parse: HeaderParser, chunks: seq<Bytes>): Rx
    requires SelfDelimiting(parse)
  {
    if chunks == [] then Start([])
    else Drain(parse, Fed(parse, chunks[..|chunks| - 1]).More(chunks[|chunks| - 1]))
  }

  lemma {:induction false} FedIsDrained(parse: HeaderParser, chunks: seq<Bytes>)
    requires SelfDelimiting(parse)
    ensures Fed(parse, chunks) == Drain(parse, Start(Joined(chunks)))
  {
    if chunks == [] {
    } else {
      var n := |chunks| - 1;
      FedIsDrained(parse, chunks[..n]);
      DrainInChunks(parse, Start(Joined(chunks[..n])), chunks[n]);
      assert Start(Joined(chunks[..n])).More(chunks[n]) == Start(Joined(chunks));
    }
  }

  /** Chunking invariance against the RFC: however the bytes of a legal frame
      sequence are split into chunks, what is delivered is its text messages
      and its pings, in order, whatever control frames stand between the
      fragments, and nothing is left over. */
  lemma StreamDecodes(parse: HeaderParser, fs: seq<Frame>, chunks: seq<Bytes>)
    requires SelfDelimiting(parse) && Legal(parse, fs, None) && Joined(chunks) == Wire(fs)
    ensures var r := Fed(parse, chunks);
      && !r.dead && r.raw == []
      && r.texts == TextMessages(fs) && r.pings == PingPayloads(fs)
  {
    hide Drain, Fed, Legal, TextsAmong, Messages, PingPayloads, SelfDelimiting;
    FedIsDrained(parse, chunks);
    FramesDecode(parse, fs, Start(Wire(fs)), None);
    assert [] + TextMessages(fs) == TextMessages(fs) && [] + PingPayloads(fs) == PingPayloads(fs);
  }
}
