/** Decoding does not depend on how the bytes arrive or on how much each read
    hands out. */
module FrameLaws {
  import opened Seqs
  import opened Wrappers
  import opened Frames

  lemma JoinSlices(raw: Bytes, lo: nat, mid: nat, hi: nat)
    requires lo <= mid <= hi <= |raw|
    ensures raw[lo..mid] + raw[mid..][..hi - mid] == raw[lo..hi]
    ensures lo == 0 ==> raw[..mid] + raw[mid..][..hi - mid] == raw[..hi]
  {
  }

  /** `part` stops inside a payload, and reading on from there with ample room
      completes it to `whole`. */
  ghost predicate CompletedBy(parse: HeaderParser, raw: Bytes, part: ReadResult, whole: ReadResult)
    requires SelfDelimiting(parse)
  {
    && part.Delivered? && whole.Delivered? && !part.end
    && part.kind == whole.kind && IsMessage(part.kind)
    && part.taken < |raw| && part.next.InPayload?
    && var rest := Read(parse, part.next, raw[part.taken..], |raw| - part.taken);
    && rest.Delivered? && rest.next == whole.next && rest.kind == whole.kind && rest.end == whole.end
    && part.taken + rest.taken == whole.taken
    && part.payload + rest.payload == whole.payload
  }

  /** The data-frame case: `len` payload bytes start at `at`; the first read
      hands out `n` of them, a read with ample room all that are there. */
  lemma SplitPayload(parse: HeaderParser, raw: Bytes, kind: Kind, fin: bool, at: nat, len: nat, n: nat)
    requires SelfDelimiting(parse) && IsMessage(kind)
    requires at <= |raw| && n < Min(len, |raw| - at)
    ensures var m := Min(len, |raw| - at);
      CompletedBy(parse, raw,
        Delivered(AfterData(kind, fin, len - n), at + n, kind, raw[at..at + n], false),
        Delivered(AfterData(kind, fin, len - m), at + m, kind, raw[at..at + m], fin && m == len))
  {
    hide SelfDelimiting;
    JoinSlices(raw, at, at + n, at + Min(len, |raw| - at));
  }

  lemma SplitInPayload(parse: HeaderParser, kind: Kind, fin: bool, left: nat, raw: Bytes, room: nat)
    requires SelfDelimiting(parse) && raw != [] && IsMessage(kind) && left > 0
    ensures var dec := InPayload(kind, fin, left);
      || Read(parse, dec, raw, room) == Read(parse, dec, raw, |raw|)
      || CompletedBy(parse, raw, Read(parse, dec, raw, room), Read(parse, dec, raw, |raw|))
  {
    hide CompletedBy, SelfDelimiting;
    var n := Min(left, Min(|raw|, if room == 0 then 1 else room));
    if n < Min(left, |raw|) {
      SplitPayload(parse, raw, kind, fin, 0, left, n);
    }
  }

  lemma SplitAtBoundary(parse: HeaderParser, message: Option<Kind>, raw: Bytes, room: nat)
    requires SelfDelimiting(parse) && raw != [] && (message.Some? ==> IsMessage(message.value))
    ensures var dec := Boundary(message);
      || Read(parse, dec, raw, room) == Read(parse, dec, raw, |raw|)
      || CompletedBy(parse, raw, Read(parse, dec, raw, room), Read(parse, dec, raw, |raw|))
  {
    hide CompletedBy;
    var whole, part := Read(parse, Boundary(message), raw, |raw|), Read(parse, Boundary(message), raw, room);
    if part != whole {
      var h := parse(raw).header;
      SplitPayload(parse, raw, part.kind, h.fin, h.size, h.len, part.taken - h.size);
    }
  }

  /** A read with a small buffer, if it stops inside the payload, is completed
      by the next read to exactly what one read would have done. */
  lemma SplitRead(parse: HeaderParser, dec: Decoder, raw: Bytes, room: nat)
    requires SelfDelimiting(parse) && raw != []
    ensures Read(parse, dec, raw, room) == Read(parse, dec, raw, |raw|)
         || CompletedBy(parse, raw, Read(parse, dec, raw, room), Read(parse, dec, raw, |raw|))
  {
    hide CompletedBy, Read;
    match dec
    case InPayload(kind, fin, left) => SplitInPayload(parse, kind, fin, left, raw, room);
    case Boundary(message) => SplitAtBoundary(parse, message, raw, room);
  }

  /** The buffer size does not matter: after a step with any buffer, everything
      still drains to the same state. */
  lemma StepRoom(parse: HeaderParser, rx: Rx, room: nat)
    requires SelfDelimiting(parse) && CanStep(parse, rx)
    ensures Drain(parse, Step(parse, rx, room)) == Drain(parse, rx)
  {
    var raw := rx.raw;
    var whole, part := Read(parse, rx.dec, raw, |raw|), Read(parse, rx.dec, raw, room);
    SplitRead(parse, rx.dec, raw, room);
    if part != whole {
      var s := Step(parse, rx, room);
      var rest := Read(parse, part.next, raw[part.taken..], |raw| - part.taken);
      assert raw[part.taken..][rest.taken..] == raw[whole.taken..];
      Regroup(rx.partial, part.payload, rest.payload);
      assert Step(parse, s, |s.raw|) == Step(parse, rx, |raw|);
    }
  }

  lemma ReadMoreInPayload(parse: HeaderParser, kind: Kind, fin: bool, left: nat, raw: Bytes, more: Bytes)
    requires SelfDelimiting(parse) && raw != [] && IsMessage(kind) && left > 0
    ensures var dec := InPayload(kind, fin, left);
      var r := Read(parse, dec, raw, |raw|);
      r.Delivered? && Read(parse, dec, raw + more, |r.payload|) == r
    ensures !Read(parse, InPayload(kind, fin, left), raw + more, |raw + more|).Incomplete?
  {
    hide SelfDelimiting;
    var n := Min(left, |raw|);
    assert (raw + more)[..n] == raw[..n];
  }

  lemma ReadMoreAtBoundary(parse: HeaderParser, message: Option<Kind>, raw: Bytes, more: Bytes)
    requires SelfDelimiting(parse) && raw != [] && (message.Some? ==> IsMessage(message.value))
    requires !Read(parse, Boundary(message), raw, |raw|).Incomplete?
    ensures var r := Read(parse, Boundary(message), raw, |raw|);
      Read(parse, Boundary(message), raw + more, if r.Delivered? then |r.payload| else 0) == r
    ensures !Read(parse, Boundary(message), raw + more, |raw + more|).Incomplete?
  {
    var r := Read(parse, Boundary(message), raw, |raw|);
    assert parse(raw + more) == parse(raw);
    if r.Delivered? {
      var h := parse(raw).header;
      assert (raw + more)[h.size..r.taken] == raw[h.size..r.taken];
    }
  }

  /** What a read with ample room delivers is still delivered, by a read with
      room for just that, when more bytes follow. */
  lemma ReadMore(parse: HeaderParser, dec: Decoder, raw: Bytes, more: Bytes)
    requires SelfDelimiting(parse) && raw != []
    requires !Read(parse, dec, raw, |raw|).Incomplete?
    ensures var r := Read(parse, dec, raw, |raw|);
      Read(parse, dec, raw + more, if r.Delivered? then |r.payload| else 0) == r
    ensures !Read(parse, dec, raw + more, |raw + more|).Incomplete?
  {
    hide Read;
    match dec
    case InPayload(kind, fin, left) => ReadMoreInPayload(parse, kind, fin, left, raw, more);
    case Boundary(message) => ReadMoreAtBoundary(parse, message, raw, more);
  }

  lemma StepMore(parse: HeaderParser, rx: Rx, more: Bytes)
    requires SelfDelimiting(parse) && CanStep(parse, rx)
    ensures CanStep(parse, rx.More(more))
    ensures exists room :: Step(parse, rx.More(more), room) == Step(parse, rx, |rx.raw|).More(more)
  {
    var r := Read(parse, rx.dec, rx.raw, |rx.raw|);
    ReadMore(parse, rx.dec, rx.raw, more);
    var room := if r.Delivered? then |r.payload| else 0;
    if r.Delivered? {
      assert (rx.raw + more)[r.taken..] == rx.raw[r.taken..] + more;
    }
    assert Step(parse, rx.More(more), room) == Step(parse, rx, |rx.raw|).More(more);
  }

  /** Chunking invariance: decoding what is there and then what arrives later
      is decoding all of it at once. */
  lemma {:induction false} DrainInChunks(parse: HeaderParser, rx: Rx, more: Bytes)
    requires SelfDelimiting(parse)
    ensures Drain(parse, Drain(parse, rx).More(more)) == Drain(parse, rx.More(more))
    decreases |rx.raw|, !rx.dead
  {
    if CanStep(parse, rx) {
      var next := Step(parse, rx, |rx.raw|);
      StepMore(parse, rx, more);
      var room :| Step(parse, rx.More(more), room) == next.More(more);
      StepRoom(parse, rx.More(more), room);
      DrainInChunks(parse, next, more);
    }
  }

  /** Texts, pings and death are never taken back. */
  lemma {:induction false} DrainKeeps(parse: HeaderParser, rx: Rx)
    requires SelfDelimiting(parse)
    ensures rx.texts <= Drain(parse, rx).texts && rx.pings <= Drain(parse, rx).pings
    ensures rx.dead ==> Drain(parse, rx) == rx
    decreases |rx.raw|, !rx.dead
  {
    if CanStep(parse, rx) {
      DrainKeeps(parse, Step(parse, rx, |rx.raw|));
    }
  }

  /** A longer stream carries the messages of a shorter one, and more after
      them; a session that has ended stays ended. */
  lemma LongerStream(parse: HeaderParser, a: Bytes, b: Bytes)
    requires SelfDelimiting(parse)
    ensures Drain(parse, Start(a)).texts <= Drain(parse, Start(a + b)).texts
    ensures Drain(parse, Start(a)).pings <= Drain(parse, Start(a + b)).pings
    ensures Drain(parse, Start(a)).dead ==> Drain(parse, Start(a + b)).dead
  {
    DrainInChunks(parse, Start(a), b);
    assert Start(a).More(b) == Start(a + b);
    DrainKeeps(parse, Drain(parse, Start(a)).More(b));
  }
}
