/** The polled WebSocket client. */
module Mesh {
  import opened Seqs
  import opened Wrappers
  import opened Protocol
  import opened Frames
  import opened FrameLaws
  import opened Time
  import opened Link

  const FRAME_BUFFER: nat := 4096
  const ESTABLISH_TIMEOUT: nat := 10 * TICKS_PER_SEC
  const IDLE_TICK: nat := TICKS_PER_SEC / 1000

  /** A panic over time: the deadline has passed, or the counter has run out. */
  predicate Late(why: Panic, deadline: nat, now: nat) {
    (why.TimedOut? && deadline < now) || (why.ClockOverrun? && COUNTER_RANGE <= now)
  }

  /** The stream after the upgrade response contains a close frame or bytes
      that are no frames. */
  ghost predicate Dead(env: Environment, prompts: seq<string>, skip: nat) {
    && env.Sane() && skip <= |Stream(env, prompts)|
    && Drain(env.parse, Start(Stream(env, prompts)[skip..])).dead
  }

  /** It contains a text message that is not UTF-8. */
  ghost predicate Garbled(env: Environment, prompts: seq<string>, skip: nat) {
    && env.Sane() && skip <= |Stream(env, prompts)|
    && exists b :: b in Drain(env.parse, Start(Stream(env, prompts)[skip..])).texts && env.utf8(b).None?
  }

  /** Its first text message is not a session frame. */
  ghost predicate Sessionless(env: Environment, prompts: seq<string>, skip: nat) {
    && env.Sane() && skip <= |Stream(env, prompts)|
    && var texts := Drain(env.parse, Start(Stream(env, prompts)[skip..])).texts;
    && texts != [] && env.utf8(texts[0]).Some? && env.sessionOf(env.utf8(texts[0]).value) == None
  }

  /** What lies behind a panic of the client, in a call that began at `began`:
      the call has lasted for more than ten seconds, the counter has run out,
      or the stream is no session. */
  ghost predicate Excuse(env: Environment, prompts: seq<string>, skip: nat, why: Panic, began: nat, now: nat) {
    || Late(why, began + ESTABLISH_TIMEOUT, now)
    || ((why.PeerClosed? || why.ProtocolError?) && Dead(env, prompts, skip))
    || (why.BadUtf8? && Garbled(env, prompts, skip))
  }

  /** The same while the session is being opened: the upgrade may also be
      refused, and the first message may be no session frame. */
  ghost predicate OpeningExcuse(env: Environment, skip: nat, why: Panic, began: nat, now: nat) {
    || Excuse(env, [], skip, why, began, now)
    || (why.ProtocolError? && env.accept(Stream(env, [])).Refused?)
    || (why.NoSessionInit? && Sessionless(env, [], skip))
  }

  /** `idle_tick`: give up after the deadline, else sleep for a millisecond. */
  method IdleTick(deadline: nat, clock: Clock) returns (o: Outcome<()>)
    modifies clock
    ensures o.Panicked? ==> Late(o.why, deadline, clock.now)
    ensures o.Returned? ==> old(clock.now) <= deadline && old(clock.now) + 10_000 <= clock.now
    ensures o.Returned? ==>
      var l := old(clock.looks);
      clock.now == old(clock.now) + clock.drift(l) + clock.drift(l + 1) + 10_000 + clock.drift(l + 2)
    ensures old(clock.now) <= clock.now
  {
    var t :- clock.Mtime();
    if t > deadline {
      return Panicked(TimedOut);
    }
    var t2 :- clock.Mtime();
    clock.WaitUntil(t2 + IDLE_TICK);
    return Returned(());
  }

  lemma GrowSlice(s: Bytes, lo: nat, mid: nat, hi: nat)
    requires lo <= mid <= hi <= |s|
    ensures s[lo..hi] == s[lo..mid] + s[mid..hi]
  {
  }

  /** A pass of the receive loop, whatever its buffer, does not change what
      everything comes to in the end. */
  lemma PassKeepsEnd(parse: HeaderParser, here: Rx, seen: Bytes, room: nat)
    requires SelfDelimiting(parse) && !here.dead && here.raw != []
    requires Drain(parse, here) == Drain(parse, Start(seen))
    ensures var r := Read(parse, here.dec, here.raw, room);
      && (r.Incomplete? ==> here == Drain(parse, Start(seen)))
      && (!r.Incomplete? ==> Drain(parse, Step(parse, here, room)) == Drain(parse, Start(seen)))
      && (!r.Incomplete? && Step(parse, here, room).dead ==> Drain(parse, Start(seen)).dead)
  {
    SplitRead(parse, here.dec, here.raw, room);
    if CanStep(parse, here) {
      StepRoom(parse, here, room);
      DrainKeeps(parse, Step(parse, here, room));
    }
  }

  /** The first `received` bytes of the stream are the upgrade response and
      then `seen`. */
  ghost predicate Arrived(stream: Bytes, upgrade: Bytes, seen: Bytes, received: nat) {
    upgrade + seen <= stream && received == |upgrade| + |seen|
  }

  /** `seen` is what has been consumed and then what has not. */
  ghost predicate Parted(seen: Bytes, done: Bytes, raw: Bytes) {
    seen == done + raw
  }

  lemma MoreArrived(stream: Bytes, upgrade: Bytes, seen: Bytes, received: nat, to: nat)
    requires Arrived(stream, upgrade, seen, received) && received <= to <= |stream|
    ensures Arrived(stream, upgrade, seen + stream[received..to], to)
  {
    assert upgrade + (seen + stream[received..to]) == stream[..to];
  }

  lemma LongerStreamArrived(stream: Bytes, longer: Bytes, upgrade: Bytes, seen: Bytes, received: nat)
    requires Arrived(stream, upgrade, seen, received) && stream <= longer
    ensures Arrived(longer, upgrade, seen, received) && received <= |longer|
  {
  }

  lemma PartedMore(seen: Bytes, done: Bytes, raw: Bytes, more: Bytes)
    requires Parted(seen, done, raw)
    ensures Parted(seen + more, done, raw + more)
  {
    Regroup(done, raw, more);
  }

  lemma PartedTake(seen: Bytes, done: Bytes, raw: Bytes, n: nat)
    requires Parted(seen, done, raw) && n <= |raw|
    ensures Parted(seen, done + raw[..n], raw[n..])
  {
    assert raw == raw[..n] + raw[n..];
    Regroup(done, raw[..n], raw[n..]);
  }

  /** Two states that come to the same still do when more bytes arrive. */
  lemma MoreOfBoth(parse: HeaderParser, here: Rx, seen: Bytes, more: Bytes)
    requires SelfDelimiting(parse)
    requires Drain(parse, here) == Drain(parse, Start(seen))
    ensures Drain(parse, here.More(more)) == Drain(parse, Start(seen + more))
  {
    DrainInChunks(parse, here, more);
    DrainInChunks(parse, Start(seen), more);
    assert Start(seen).More(more) == Start(seen + more);
  }

  /** How one pass of the receive loop ends. */
  datatype Pass = Starved | Quiet | Got(text: string)

  class Mesh {
    const env: Environment

    // the client's own fields
    var ws: Decoder
    var rxRaw: Bytes
    var msgPartial: Bytes
    var sessionId: u64

    // the socket: what has been queued, and how far the stream has been received
    var tx: Bytes
    var frames: seq<OutFrame>
    var received: nat

    // positions in the environment's schedules
    var pumps: nat
    var recvs: nat
    var decodes: nat
    var sends: nat

    // history
    ghost var head: Bytes       // the upgrade request
    ghost var upgrade: Bytes    // the upgrade response
    ghost var seen: Bytes       // WebSocket bytes received
    ghost var done: Bytes       // of these, the bytes the decoder has consumed
    ghost var texts: seq<Bytes> // messages handed out
    ghost var pings: seq<Bytes> // pings answered

    /** The bytes the gateway sends in all, as things stand. */
    function Inbound(): Bytes
      reads `frames
    {
      Stream(env, PromptsIn(frames))
    }

    /** How much of it has come in by pump number `n`. */
    function ArrivedBy(n: nat): nat
      reads `frames
    {
      Min(env.arrivals(n), |Inbound()|)
    }

    /** The receiving side as a value. */
    ghost function Here(): Rx
      reads this
    {
      Rx(ws, msgPartial, rxRaw, texts, pings, false)
    }

    /** Number of bytes still to be received and decoded. */
    ghost function Left(): int
      reads this
    {
      |Inbound()| - received + |rxRaw|
    }

    /** What has been received is a prefix of the gateway's stream; past the
        upgrade response every byte is consumed or still in `rxRaw`, in order;
        the queued bytes are the queued frames, and one pong per ping. */
    ghost predicate InOrder()
      reads this
    {
      && env.Sane()
      && received <= |Inbound()| && Arrived(Inbound(), upgrade, seen, received)
      && Parted(seen, done, rxRaw)
      && tx == head + WireOut(env, frames)
      && PongsIn(frames) == pings
    }

    /** Moreover, what has been done so far, carried on, comes to the decoding
        of everything received at once. */
    ghost predicate Valid()
      reads this
    {
      InOrder() && Drain(env.parse, Here()) == Drain(env.parse, Start(seen))
    }

    /** The stream, as far as the gateway has determined it, contains a close
        frame or bytes that are no frames. */
    ghost predicate Doomed()
      reads `frames, `upgrade
    {
      Dead(env, PromptsIn(frames), |upgrade|)
    }

    /** A panic that has its reason. */
    ghost predicate Excused(why: Panic, began: nat, now: nat)
      reads `frames, `upgrade
    {
      Excuse(env, PromptsIn(frames), |upgrade|, why, began, now)
    }

    /** What has been seen to be dead is part of a doomed stream. */
    lemma DeadIsDoomed()
      requires InOrder() && Drain(env.parse, Start(seen)).dead
      ensures Doomed()
    {
      hide Drain, Stream, PromptsIn, PongsIn, WireOut, SelfDelimiting;
      LongerStream(env.parse, seen, Inbound()[received..]);
      assert Inbound()[|upgrade|..] == seen + Inbound()[received..];
    }

    /** The messages handed out are the first messages of what has been seen,
        and those are the first messages of the whole stream. */
    lemma TextsAreFirst()
      requires Valid()
      ensures |upgrade| <= |Inbound()|
      ensures texts <= Drain(env.parse, Start(seen)).texts
           <= Drain(env.parse, Start(Inbound()[|upgrade|..])).texts
    {
      hide Drain, Stream, PromptsIn, PongsIn, WireOut, SelfDelimiting;
      DrainKeeps(env.parse, Here());
      LongerStream(env.parse, seen, Inbound()[received..]);
      assert Inbound()[|upgrade|..] == seen + Inbound()[received..];
    }

    /** A message handed out that is not UTF-8 is one of the stream's. */
    lemma LastIsGarbled()
      requires Valid() && texts != [] && env.utf8(texts[|texts| - 1]).None?
      ensures Garbled(env, PromptsIn(frames), |upgrade|)
    {
      hide Drain, Stream, PromptsIn, PongsIn, WireOut, SelfDelimiting;
      TextsAreFirst();
      var b := texts[|texts| - 1];
      assert b in Drain(env.parse, Start(Inbound()[|upgrade|..])).texts;
    }

    /** The initial state, up to the first byte of the WebSocket stream. */
    ghost predicate Waiting()
      reads this
    {
      && frames == [] && upgrade == done == [] && texts == pings == []
      && ws == Boundary(None) && msgPartial == []
    }

    constructor (env: Environment)
      requires env.Sane()
      ensures Valid() && Waiting() && this.env == env && tx == [] && received == 0
    {
      this.env := env;
      ws, rxRaw, msgPartial, sessionId := Boundary(None), [], [], 0;
      tx, frames, received := [], [], 0;
      pumps, recvs, decodes, sends := 0, 0, 0, 0;
      head, upgrade, seen, done, texts, pings := [], [], [], [], [], [];
    }

    /** The loop of `pump`: one slice of the socket's buffer at a time. */
    method Receive(target: nat)
      requires received <= target <= |Inbound()|
      modifies `rxRaw, `received, `recvs
      ensures received == target
      ensures rxRaw == old(rxRaw) + Inbound()[old(received)..received]
    {
      var stream := Inbound();
      assert rxRaw + stream[received..received] == rxRaw;
      while received < target
        invariant old(received) <= received <= target
        invariant rxRaw == old(rxRaw) + stream[old(received)..received]
      {
        var k := env.slice(recvs);
        recvs := recvs + 1;
        var end := if k == 0 then received + 1 else Min(received + k, target);
        GrowSlice(stream, old(received), received, end);
        Regroup(old(rxRaw), stream[old(received)..received], stream[received..end]);
        rxRaw := rxRaw + stream[received..end];
        received := end;
      }
    }

    /** Take in everything up to `target`. */
    method TakeIn(target: nat)
      requires InOrder() && received <= target <= |Inbound()|
      modifies `rxRaw, `received, `seen, `recvs
      ensures InOrder() && received == target
      ensures var more := Inbound()[old(received)..target];
        Here() == old(Here()).More(more) && seen == old(seen) + more
    {
      hide Stream, PromptsIn, PongsIn, WireOut, SelfDelimiting, Arrived, Parted;
      Receive(target);
      ghost var more := Inbound()[old(received)..target];
      MoreArrived(Inbound(), upgrade, seen, old(received), target);
      PartedMore(seen, done, old(rxRaw), more);
      seen := seen + more;
    }

    /** `pump`: move every byte that has come in into `rxRaw`. */
    method Pump()
      requires Valid()
      modifies `rxRaw, `received, `seen, `pumps, `recvs
      ensures Valid() && pumps == old(pumps) + 1
      ensures var come := ArrivedBy(old(pumps)); received == if come < old(received) then old(received) else come
      ensures old(seen) <= seen && Left() == old(Left())
      ensures rxRaw == old(rxRaw) + seen[|old(seen)|..]
    {
      hide Drain, Stream, PromptsIn, PongsIn, WireOut, SelfDelimiting, Arrived, Parted;
      var n := env.arrivals(pumps);
      pumps := pumps + 1;
      ghost var here := Here();
      TakeIn(if n < received then received else Min(n, |Inbound()|));
      MoreOfBoth(env.parse, here, old(seen), Inbound()[old(received)..received]);
    }

    /** `blocking_send_raw`: offer the rest until the socket has taken it all.
        Whatever the pattern of partial accepts, what the socket holds
        afterwards is what it held before, then `bytes`; a run that gives up
        has queued a prefix. */
    method BlockingSendRaw(bytes: Bytes, clock: Clock) returns (o: Outcome<()>)
      modifies `tx, `sends, clock
      ensures old(clock.now) <= clock.now
      ensures o.Panicked? ==> Late(o.why, old(clock.now) + 100_000_000, clock.now)
      ensures o.Returned? ==> tx == old(tx) + bytes
      ensures exists k :: 0 <= k <= |bytes| && tx == old(tx) + bytes[..k]
    {
      assert old(tx) + bytes[..0] == tx;
      var t :- clock.Mtime();
      var deadline := t + ESTABLISH_TIMEOUT;
      var off := 0;
      while off < |bytes|
        invariant 0 <= off <= |bytes|
        invariant tx == old(tx) + bytes[..off]
        invariant old(clock.now) <= clock.now
        decreases |bytes| - off, deadline - clock.now
      {
        var n := Min(env.accepts(sends), |bytes| - off);
        sends := sends + 1;
        tx := tx + bytes[off..off + n];
        assert bytes[..off] + bytes[off..off + n] == bytes[..off + n];
        off := off + n;
        if off < |bytes| {
          var _ :- IdleTick(deadline, clock);
        }
      }
      assert bytes[..off] == bytes;
      return Returned(());
    }

    /** `send_text`, and the pong reply of the receive loop: encode one frame
        and queue all of it. */
    method SendFrame(f: OutFrame, clock: Clock) returns (o: Outcome<()>)
      requires env.Sane() && tx == head + WireOut(env, frames)
      modifies `tx, `sends, `frames, clock
      ensures old(clock.now) <= clock.now
      ensures o.Panicked? ==> Late(o.why, old(clock.now) + ESTABLISH_TIMEOUT, clock.now)
      ensures o.Returned? ==> frames == old(frames) + [f] && tx == head + WireOut(env, frames)
      ensures o.Panicked? ==> frames == old(frames)
    {
      var bytes := env.wire(|frames|, f);
      var _ :- BlockingSendRaw(bytes, clock);
      FramesAppend(env, frames, f);
      Regroup(head, WireOut(env, frames), bytes);
      frames := frames + [f];
      return Returned(());
    }

    /** The read of one pass: the decoder moves on and its input leaves
        `rxRaw`; what was delivered still has to be taken in. */
    method ReadOne() returns (r: ReadResult)
      requires Valid() && rxRaw != []
      modifies `ws, `rxRaw, `done, `decodes
      ensures InOrder()
      ensures !r.Delivered? ==> Here() == old(Here())
      ensures r.Incomplete? ==> Here() == Drain(env.parse, Start(seen))
      ensures r.Failed? ==> Drain(env.parse, Start(seen)).dead
      ensures r.Delivered? ==>
        var taken := Absorb(Here(), r.kind, r.payload, r.end);
        && |rxRaw| < |old(rxRaw)|
        && Drain(env.parse, taken) == Drain(env.parse, Start(seen))
        && (taken.dead ==> Drain(env.parse, Start(seen)).dead)
    {
      hide Drain, Read, CanStep, Stream, WireOut, PromptsIn, PongsIn, SelfDelimiting, Absorb, Arrived, Parted;
      var room := Min(env.grain(decodes), FRAME_BUFFER);
      PassKeepsEnd(env.parse, Here(), seen, room);
      decodes := decodes + 1;
      r := Read(env.parse, ws, rxRaw, room);
      if r.Delivered? {
        ws := r.next;
        PartedTake(seen, done, rxRaw, r.taken);
        done, rxRaw := done + rxRaw[..r.taken], rxRaw[r.taken..];
      }
    }

    /** A delivery is due: taking it in leads where everything leads. */
    ghost predicate Due(kind: Kind, payload: Bytes, end: bool)
      reads this
    {
      InOrder() && Drain(env.parse, Absorb(Here(), kind, payload, end)) == Drain(env.parse, Start(seen))
    }

    /** The text arm: extend the partial message, hand it out at its end. */
    method TakeText(payload: Bytes, end: bool) returns (o: Outcome<Pass>)
      requires Due(Kind.Text, payload, end)
      modifies `msgPartial, `texts
      ensures o.Panicked? ==> o.why.BadUtf8? && Garbled(env, PromptsIn(frames), |upgrade|)
      ensures o.Returned? ==> Valid() && !o.value.Starved?
      ensures o == Returned(Quiet) ==> texts == old(texts)
      ensures o.Returned? && o.value.Got? ==> Extends(old(texts), texts, o.value.text)
    {
      hide Drain, Stream, WireOut, PromptsIn, PongsIn, SelfDelimiting, Arrived, Parted;
      msgPartial := msgPartial + payload;
      if !end {
        return Returned(Quiet);
      }
      var msg := msgPartial;
      msgPartial, texts := [], texts + [msg];
      match env.utf8(msg)
      case Some(text) => return Returned(Got(text));
      case None =>
        LastIsGarbled();
        return Panicked(BadUtf8);
    }

    /** One more message, which reads as `text`. */
    ghost predicate Extends(before: seq<Bytes>, after: seq<Bytes>, text: string) {
      |after| == |before| + 1 && before <= after && env.utf8(after[|before|]) == Some(text)
    }

    /** The ping arm: answer at once with the same payload (RFC 6455 section
        5.5.3). */
    method AnswerPing(payload: Bytes, clock: Clock) returns (o: Outcome<()>)
      requires Due(Kind.Ping, payload, true)
      modifies `pings, `tx, `sends, `frames, clock
      ensures old(clock.now) <= clock.now
      ensures o.Panicked? ==> Late(o.why, old(clock.now) + ESTABLISH_TIMEOUT, clock.now)
      ensures o.Returned? ==> Valid()
      ensures PromptsIn(frames) == old(PromptsIn(frames))
    {
      hide Drain, Stream, WireOut, PromptsIn, PongsIn, SelfDelimiting, Arrived, Parted;
      FramesAppend(env, frames, PongFrame(payload));
      var _ :- SendFrame(PongFrame(payload), clock);
      pings := pings + [payload];
      return Returned(());
    }

    /** One pass of the receive loop: one read, and what is done with it. */
    method DecodeOne(clock: Clock) returns (o: Outcome<Pass>)
      requires Valid() && rxRaw != []
      modifies `ws, `rxRaw, `msgPartial, `texts, `pings, `done, `decodes, `tx, `sends, `frames, clock
      ensures old(clock.now) <= clock.now
      ensures o.Returned? ==> Valid()
      ensures PromptsIn(frames) == old(PromptsIn(frames))
      ensures o == Returned(Starved) ==> Here() == old(Here()) == Drain(env.parse, Start(seen))
      ensures o == Returned(Quiet) ==> texts == old(texts) && |rxRaw| < |old(rxRaw)|
      ensures o.Returned? && o.value.Got? ==> |rxRaw| < |old(rxRaw)| && Extends(old(texts), texts, o.value.text)
      ensures o.Panicked? ==> Excused(o.why, old(clock.now), clock.now)
    {
      hide Drain, Stream, WireOut, PromptsIn, PongsIn, SelfDelimiting, Dead, Garbled, Sessionless, Arrived, Parted;
      var r := ReadOne();
      match r
      case Incomplete => return Returned(Starved);
      case Failed =>
        DeadIsDoomed();
        return Panicked(ProtocolError);
      case Delivered(_, _, kind, payload, end) =>
        match kind
        case Text =>
          o := TakeText(payload, end);
        case Ping =>
          var _ :- AnswerPing(payload, clock);
          return Returned(Quiet);
        case Close =>
          DeadIsDoomed();
          return Panicked(PeerClosed);
        case _ =>
          return Returned(Quiet);
    }

    /** The loop of `try_next_text`: decode until a text message is complete.
        `None` means that nothing further can be decoded from what has been
        received. */
    method DecodeOn(clock: Clock) returns (o: Outcome<Option<string>>)
      requires Valid()
      modifies `ws, `rxRaw, `msgPartial, `texts, `pings, `done, `decodes, `tx, `sends, `frames, clock
      ensures old(clock.now) <= clock.now
      ensures o.Returned? ==> Valid()
      ensures PromptsIn(frames) == old(PromptsIn(frames))
      ensures o == Returned(None) ==>
        texts == old(texts) && |rxRaw| <= |old(rxRaw)| && Here() == Drain(env.parse, Start(seen))
      ensures o.Returned? && o.value.Some? ==>
        Extends(old(texts), texts, o.value.value) && |rxRaw| < |old(rxRaw)|
      ensures o.Panicked? ==> Excused(o.why, old(clock.now), clock.now)
    {
      hide Drain, Stream, WireOut, PromptsIn, PongsIn, SelfDelimiting, Extends, Absorb, Arrived, Parted;
      hide Dead, Garbled, Sessionless;
      while rxRaw != []
        invariant Valid() && PromptsIn(frames) == old(PromptsIn(frames))
        invariant texts == old(texts) && |rxRaw| <= |old(rxRaw)|
        invariant old(clock.now) <= clock.now
        decreases |rxRaw|
      {
        var pass :- DecodeOne(clock);
        match pass
        case Got(text) => return Returned(Some(text));
        case Starved => return Returned(None);
        case Quiet =>
      }
      NothingLeft(env.parse, Here());
      return Returned(None);
    }

    /** `try_next_text`: pump once, then decode on. Everything that has come in
        by that pump is received. */
    method TryNextText(clock: Clock) returns (o: Outcome<Option<string>>)
      requires Valid()
      modifies `ws, `rxRaw, `msgPartial, `received, `seen, `texts, `pings, `done,
               `pumps, `recvs, `decodes, `tx, `sends, `frames, clock
      ensures old(clock.now) <= clock.now
      ensures o.Returned? ==> Valid() && old(seen) <= seen
      ensures pumps == old(pumps) + 1 && old(ArrivedBy(pumps)) <= received && old(received) <= received
      ensures PromptsIn(frames) == old(PromptsIn(frames))
      ensures o == Returned(None) ==>
        texts == old(texts) && Left() <= old(Left()) && Here() == Drain(env.parse, Start(seen))
      ensures o.Returned? && o.value.Some? ==>
        Extends(old(texts), texts, o.value.value) && Left() < old(Left())
      ensures o.Panicked? ==> Excused(o.why, old(clock.now), clock.now)
    {
      hide Drain, Stream, WireOut, PromptsIn, PongsIn, SelfDelimiting, Extends, InOrder, Dead, Garbled, Sessionless;
      Pump();
      o := DecodeOn(clock);
    }

    /** `next_text`: poll until a message arrives or the deadline passes. */
    method NextText(deadline: nat, clock: Clock) returns (o: Outcome<string>)
      requires Valid()
      modifies `ws, `rxRaw, `msgPartial, `received, `seen, `texts, `pings, `done,
               `pumps, `recvs, `decodes, `tx, `sends, `frames, clock
      ensures old(clock.now) <= clock.now
      ensures o.Returned? ==> Valid() && old(seen) <= seen
      ensures old(pumps) < pumps && old(ArrivedBy(pumps)) <= received
      ensures PromptsIn(frames) == old(PromptsIn(frames))
      ensures o.Returned? ==> Extends(old(texts), texts, o.value)
      ensures o.Panicked? ==>
        || Excused(o.why, old(clock.now), clock.now)
        || (Late(o.why, deadline, clock.now) && Valid() && texts == old(texts) && Here() == Drain(env.parse, Start(seen)))
    {
      hide Drain, Stream, WireOut, PromptsIn, PongsIn, SelfDelimiting, Extends, Arrived, Parted;
      ghost var first := true;
      while true
        invariant Valid() && PromptsIn(frames) == old(PromptsIn(frames)) && old(seen) <= seen
        invariant texts == old(texts) && old(clock.now) <= clock.now
        invariant if first then pumps == old(pumps) && received == old(received) else
          old(pumps) < pumps && old(ArrivedBy(pumps)) <= received
        decreases deadline - clock.now
      {
        var m :- TryNextText(clock);
        if m.Some? {
          return Returned(m.value);
        }
        first := false;
        var _ :- IdleTick(deadline, clock);
      }
    }

    /** `send_text`. */
    method SendText(text: string, clock: Clock) returns (o: Outcome<()>)
      requires Valid()
      modifies `tx, `sends, `frames, clock
      ensures old(clock.now) <= clock.now
      ensures o.Returned? ==> Valid() && frames == old(frames) + [TextFrame(text)]
      ensures PromptsIn(frames) == old(PromptsIn(frames)) + (if o.Returned? then [text] else [])
      ensures o.Panicked? ==> Late(o.why, old(clock.now) + ESTABLISH_TIMEOUT, clock.now)
    {
      hide Drain, WireOut, PromptsIn, PongsIn, Stream, SelfDelimiting, Arrived, Parted;
      FramesAppend(env, frames, TextFrame(text));
      StreamGrows(env, PromptsIn(frames), [text]);
      LongerStreamArrived(Inbound(), Stream(env, PromptsIn(frames) + [text]), upgrade, seen, received);
      var _ :- SendFrame(TextFrame(text), clock);
      return Returned(());
    }

    /** The handshake loop of `establish`: collect the response however it is
        cut up, and keep what follows it. It gives up only while the response
        is incomplete in all that has come in. */
    method Handshake(request: Bytes, deadline: nat, clock: Clock) returns (o: Outcome<()>)
      requires Valid() && Waiting() && head == request
      modifies `rxRaw, `received, `seen, `pumps, `recvs, `upgrade, clock
      ensures old(clock.now) <= clock.now
      ensures o.Returned? ==> Valid() && env.accept(Inbound()) == Accepted(|upgrade|)
      ensures old(pumps) < pumps && old(ArrivedBy(pumps)) <= received <= |Inbound()|
      ensures o.Panicked? ==>
        || (Late(o.why, deadline, clock.now) && env.accept(Inbound()[..received]).HeaderIncomplete?)
        || (o.why.ProtocolError? && env.accept(Inbound()).Refused?)
    {
      hide Drain, SelfDelimiting, WireOut, Stream, PromptsIn, PongsIn, Arrived, Parted;
      ghost var first := true;
      while true
        invariant Valid() && Waiting()
        invariant if first then pumps == old(pumps) && received == old(received) else
          old(pumps) < pumps && old(ArrivedBy(pumps)) <= received
        invariant old(clock.now) <= clock.now
        decreases deadline - clock.now
      {
        Pump();
        match env.accept(rxRaw)
        case Accepted(size) =>
          HeadAccepted(size);
          upgrade, seen, rxRaw := rxRaw[..size], rxRaw[size..], rxRaw[size..];
          return Returned(());
        case Refused =>
          HeadRefused();
          return Panicked(ProtocolError);
        case HeaderIncomplete =>
          NothingTaken();
          first := false;
          var _ :- IdleTick(deadline, clock);
      }
    }

    /** The first lines of `establish`: queue the upgrade request. */
    method SendUpgrade(request: Bytes, clock: Clock) returns (o: Outcome<()>)
      requires Valid() && Waiting() && tx == []
      modifies `tx, `sends, `head, clock
      ensures old(clock.now) <= clock.now
      ensures o.Returned? ==> Valid() && Waiting() && head == request
      ensures o.Panicked? ==> Late(o.why, old(clock.now) + ESTABLISH_TIMEOUT, clock.now)
    {
      assert WireOut(env, []) == [];
      hide Drain, SelfDelimiting, Stream, PromptsIn, PongsIn, WireOut, Arrived, Parted;
      var _ :- BlockingSendRaw(request, clock);
      head := request;
      assert tx == request + [];
      return Returned(());
    }

    /** The last lines of `establish`: the gateway speaks first. */
    method ReadSession(deadline: nat, clock: Clock) returns (o: Outcome<()>)
      requires Valid() && texts == []
      modifies `ws, `rxRaw, `msgPartial, `sessionId, `received, `seen, `texts, `pings, `done,
               `pumps, `recvs, `decodes, `tx, `sends, `frames, clock
      ensures old(clock.now) <= clock.now
      ensures o.Returned? ==> Valid() && FirstTextIsSession()
      ensures PromptsIn(frames) == old(PromptsIn(frames))
      ensures o.Panicked? ==>
        || Excused(o.why, old(clock.now), clock.now) || Late(o.why, deadline, clock.now)
        || (o.why.NoSessionInit? && Sessionless(env, PromptsIn(frames), |upgrade|))
    {
      hide Drain, SelfDelimiting, Stream, PromptsIn, PongsIn, WireOut, Arrived, Parted;
      var text :- NextText(deadline, clock);
      match env.sessionOf(text)
      case Some(id) =>
        sessionId := id;
        return Returned(());
      case None =>
        FirstTextIsNoSession(text);
        return Panicked(NoSessionInit);
    }

    /** The upgrade part of `establish`: request and response. */
    method Connect(request: Bytes, clock: Clock) returns (o: Outcome<nat>)
      requires Valid() && Waiting() && tx == []
      modifies `rxRaw, `received, `head, `upgrade, `seen, `pumps, `recvs, `tx, `sends, clock
      ensures old(clock.now) <= clock.now
      ensures o.Returned? ==>
        && Valid() && texts == [] && head == request
        && env.accept(Inbound()) == Accepted(|upgrade|)
        && old(clock.now) + ESTABLISH_TIMEOUT <= o.value
      ensures o.Panicked? ==>
        || Late(o.why, old(clock.now) + ESTABLISH_TIMEOUT, clock.now)
        || (o.why.ProtocolError? && env.accept(Inbound()).Refused?)
    {
      hide Drain, SelfDelimiting, Stream, PromptsIn, PongsIn, WireOut, Arrived, Parted;
      var _ :- SendUpgrade(request, clock);
      var t :- clock.Mtime();
      var deadline := t + ESTABLISH_TIMEOUT;
      var _ :- Handshake(request, deadline, clock);
      return Returned(deadline);
    }

    /** `establish`, from the upgrade request to the session frame. */
    method Establish(request: Bytes, clock: Clock) returns (o: Outcome<()>)
      requires Valid() && Waiting() && tx == []
      modifies `ws, `rxRaw, `msgPartial, `sessionId, `received, `head, `upgrade, `seen, `texts, `pings, `done,
               `pumps, `recvs, `decodes, `tx, `sends, `frames, clock
      ensures old(clock.now) <= clock.now
      ensures PromptsIn(frames) == []
      ensures o.Returned? ==> Valid() && head == request
      ensures o.Returned? ==> env.accept(Inbound()) == Accepted(|upgrade|) && FirstTextIsSession()
      ensures o.Panicked? ==> OpeningExcuse(env, |upgrade|, o.why, old(clock.now), clock.now)
      ensures o.Panicked? && env.accept(Inbound()) != Accepted(|upgrade|) ==>
        || Late(o.why, old(clock.now) + ESTABLISH_TIMEOUT, clock.now)
        || (o.why.ProtocolError? && env.accept(Inbound()).Refused?)
    {
      assert PromptsIn([]) == [];
      hide Drain, SelfDelimiting, Stream, PromptsIn, PongsIn, WireOut, Arrived, Parted;
      hide FirstTextIsSession, Dead, Garbled, Sessionless, InOrder;
      var deadline :- Connect(request, clock);
      o := ReadSession(deadline, clock);
    }

    ghost predicate FirstTextIsSession()
      reads this
    {
      |texts| == 1 && env.utf8(texts[0]).Some? && env.sessionOf(env.utf8(texts[0]).value) == Some(sessionId)
    }

    lemma FirstTextIsNoSession(text: string)
      requires Valid() && texts != [] && env.utf8(texts[0]) == Some(text) && env.sessionOf(text) == None
      ensures Sessionless(env, PromptsIn(frames), |upgrade|)
    {
      hide Drain, Stream, PromptsIn, PongsIn, WireOut, SelfDelimiting;
      TextsAreFirst();
    }

    /** Until the response is complete, everything received is undecoded. */
    lemma NothingTaken()
      requires InOrder() && upgrade == done == []
      ensures rxRaw == Inbound()[..received]
    {
      assert [] + seen == seen && [] + rxRaw == rxRaw;
    }

    lemma HeadRefused()
      requires InOrder() && upgrade == done == [] && env.accept(rxRaw).Refused?
      ensures env.accept(Inbound()).Refused?
    {
      assert [] + seen == seen && [] + rxRaw == rxRaw;
      assert Inbound() == rxRaw + Inbound()[received..];
    }

    lemma HeadAccepted(size: nat)
      requires InOrder() && upgrade == done == [] && env.accept(rxRaw) == Accepted(size)
      ensures env.accept(Inbound()) == Accepted(size) && size <= |rxRaw|
      ensures Arrived(Inbound(), rxRaw[..size], rxRaw[size..], received)
      ensures Parted(rxRaw[size..], done, rxRaw[size..])
    {
      assert [] + seen == seen && [] + rxRaw == rxRaw;
      assert Inbound() == rxRaw + Inbound()[received..];
      assert rxRaw[..size] + rxRaw[size..] == rxRaw;
    }
  }

  lemma NothingLeft(parse: HeaderParser, rx: Rx)
    requires SelfDelimiting(parse) && rx.raw == []
    ensures Drain(parse, rx) == rx
  {
  }
}
