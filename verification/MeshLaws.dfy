/** The client's history against RFC 6455: what it has handed out, what it has
    answered, and what it has queued. */
module MeshLaws {
  import opened Wrappers
  import opened Time
  import opened Frames
  import opened FrameLaws
  import opened Rfc6455
  import opened RfcLaws
  import opened Link
  import opened Mesh

  /** After the upgrade response the gateway has sent the whole frames `fs`. */
  ghost predicate Sends(mesh: Mesh, fs: seq<Frame>)
    reads mesh
  {
    mesh.Valid() && Carries(mesh.env.parse, mesh.Inbound(), mesh.upgrade, fs)
  }

  predicate Carries(parse: HeaderParser, stream: Bytes, upgrade: Bytes, fs: seq<Frame>) {
    Legal(parse, fs, None) && |upgrade| <= |stream| && stream[|upgrade|..] == Wire(fs)
  }

  lemma SeenIsPart(mesh: Mesh, fs: seq<Frame>)
    requires Sends(mesh, fs)
    ensures mesh.seen + mesh.Inbound()[mesh.received..] == Wire(fs)
    ensures mesh.received == |mesh.Inbound()| ==> mesh.seen == Wire(fs)
  {
    hide Drain, Legal, Wire, Stream, PromptsIn;
    assert mesh.Inbound()[|mesh.upgrade|..] == mesh.seen + mesh.Inbound()[mesh.received..];
  }

  lemma WireDecodes(parse: HeaderParser, fs: seq<Frame>)
    requires SelfDelimiting(parse) && Legal(parse, fs, None)
    ensures var r := Drain(parse, Start(Wire(fs)));
      && !r.dead && r.raw == []
      && r.texts == TextMessages(fs) && r.pings == PingPayloads(fs)
  {
    hide Drain, Legal, TextsAmong, Messages, PingPayloads, SelfDelimiting, Wire;
    FramesDecode(parse, fs, Start(Wire(fs)), None);
    assert [] + TextMessages(fs) == TextMessages(fs) && [] + PingPayloads(fs) == PingPayloads(fs);
  }

  /** At every moment of every run: the messages handed out are the first text
      messages of the frames, in order; the pongs queued answer the first
      pings, one each, in order, with equal payload; and the bytes queued are
      the upgrade request and then the queued frames, in call order, none lost
      and none twice. */
  lemma HistoryIsInOrder(mesh: Mesh, fs: seq<Frame>)
    requires Sends(mesh, fs)
    ensures mesh.texts <= TextMessages(fs)
    ensures PongsIn(mesh.frames) <= PingPayloads(fs)
    ensures mesh.tx == mesh.head + WireOut(mesh.env, mesh.frames)
  {
    hide Drain, Legal, Wire, Stream, PromptsIn, PongsIn, WireOut, TextMessages, PingPayloads, SelfDelimiting;
    var parse := mesh.env.parse;
    SeenIsPart(mesh, fs);
    WireDecodes(parse, fs);
    DrainKeeps(parse, mesh.Here());
    LongerStream(parse, mesh.seen, mesh.Inbound()[mesh.received..]);
  }

  /** Once nothing further can be decoded and every byte has been received,
      the messages handed out are exactly those of the frames, every ping has
      its pong, and no byte is left over. */
  lemma CaughtUp(mesh: Mesh, fs: seq<Frame>)
    requires Sends(mesh, fs) && mesh.received == |mesh.Inbound()|
    requires mesh.Here() == Drain(mesh.env.parse, Start(mesh.seen))
    ensures mesh.texts == TextMessages(fs) && PongsIn(mesh.frames) == PingPayloads(fs) && mesh.rxRaw == []
  {
    hide Drain, Legal, Wire, Stream, PromptsIn, PongsIn, WireOut, TextMessages, PingPayloads, SelfDelimiting;
    SeenIsPart(mesh, fs);
    WireDecodes(mesh.env.parse, fs);
  }

  /** The messages that `out` reads are the ones handed out since `before`. */
  ghost predicate ReadOut(env: Environment, before: seq<Bytes>, after: seq<Bytes>, out: seq<string>) {
    && before <= after && |after| == |before| + |out|
    && forall i :: 0 <= i < |out| ==> env.utf8(after[|before| + i]) == Some(out[i])
  }

  lemma NothingReadOut(env: Environment, texts: seq<Bytes>)
    ensures ReadOut(env, texts, texts, [])
  {
  }

  lemma ReadOutMore(mesh: Mesh, before: seq<Bytes>, sofar: seq<Bytes>, out: seq<string>, after: seq<Bytes>, text: string)
    requires ReadOut(mesh.env, before, sofar, out) && mesh.Extends(sofar, after, text)
    ensures ReadOut(mesh.env, before, after, out + [text])
  {
    forall i | 0 <= i < |out + [text]| ensures mesh.env.utf8(after[|before| + i]) == Some((out + [text])[i]) {
      assert i < |out| ==> after[|before| + i] == sofar[|before| + i];
    }
  }

  /** `while let Some(text) = try_next_text()`, once the gateway's bytes have
      come in: however they were cut up, the calls hand out exactly the text
      messages of the whole stream, in order, and answer every ping. They end
      in no protocol error and no close. */
  method ReadOn(mesh: Mesh, ghost fs: seq<Frame>, clock: Clock) returns (o: Outcome<seq<string>>)
    requires Sends(mesh, fs) && |mesh.Inbound()| <= mesh.env.arrivals(mesh.pumps)
    modifies mesh, clock
    ensures o.Returned? ==>
      && Sends(mesh, fs) && ReadOut(mesh.env, old(mesh.texts), mesh.texts, o.value)
      && mesh.texts == TextMessages(fs) && PongsIn(mesh.frames) == PingPayloads(fs) && mesh.rxRaw == []
    ensures o.Panicked? ==> !o.why.PeerClosed? && !o.why.ProtocolError?
    ensures o.Panicked? ==> mesh.Excused(o.why, old(clock.now), clock.now)
  {
    hide Drain, Stream, PromptsIn, PongsIn, WireOut, TextMessages, PingPayloads, SelfDelimiting;
    hide Carries, Dead, Garbled, ReadOut;
    NothingReadOut(mesh.env, mesh.texts);
    var out := [];
    ghost var first := true;
    while true
      invariant Sends(mesh, fs) && PromptsIn(mesh.frames) == old(PromptsIn(mesh.frames))
      invariant ReadOut(mesh.env, old(mesh.texts), mesh.texts, out)
      invariant if first then mesh.pumps == old(mesh.pumps) else mesh.received == |mesh.Inbound()|
      invariant old(clock.now) <= clock.now
      decreases mesh.Left()
    {
      ghost var sofar := mesh.texts;
      LegalIsNotDoomed(mesh, fs);
      var m :- mesh.TryNextText(clock);
      first := false;
      match m
      case None =>
        CaughtUp(mesh, fs);
        return Returned(out);
      case Some(text) =>
        ReadOutMore(mesh, old(mesh.texts), sofar, out, mesh.texts, text);
        out := out + [text];
    }
  }

  /** Legal frames never end the session: a client that reads them meets
      neither a protocol error nor a close. */
  lemma LegalIsNotDoomed(mesh: Mesh, fs: seq<Frame>)
    requires Sends(mesh, fs)
    ensures !mesh.Doomed()
  {
    hide Drain, Legal, Wire, Stream, PromptsIn, SelfDelimiting;
    WireDecodes(mesh.env.parse, fs);
  }
}
