/** The WebSocket frame decoder as the client sees it, and the state it feeds:
    what one read consumes and delivers, and what repeated reads come to. */
module Frames {
  import opened Wrappers

  newtype byte = x: int | 0 <= x < 256
  type Bytes = seq<byte>

  function Min(a: nat, b: nat): nat {
    if a < b then a else b
  }

  // ── frame headers ──────────────────────────────────────────────────────

  datatype Kind = Text | Binary | Continuation | Ping | Pong | Close

  predicate IsControl(k: Kind) {
    k.Ping? || k.Pong? || k.Close?
  }

  /** A parsed frame header: its own size in bytes, and what it announces. */
  datatype Header = Header(size: nat, kind: Kind, fin: bool, len: nat)

  /** What the front of a buffer says: not enough bytes for a header yet, bytes
      that cannot start a frame, or a header. */
  datatype Front = Short | Malformed | Parsed(header: Header)

  type HeaderParser = Bytes -> Front

  /** A header is not empty, lies within the bytes it was read from, and is read
      the same way when more bytes follow it. */
  ghost predicate SelfDelimiting(parse: HeaderParser) {
    && parse([]) == Short
    && (forall b: Bytes :: parse(b).Parsed? ==> 1 <= parse(b).header.size <= |b|)
    && (forall b: Bytes, more: Bytes {:trigger parse(b + more)} ::
          !parse(b).Short? ==> parse(b + more) == parse(b))
  }

  // ── one read ───────────────────────────────────────────────────────────

  /** The decoder between two reads: at a frame boundary, remembering the type
      of a fragmented message in progress, or inside a data frame's payload. */
  datatype DecoderState =
    | Boundary(message: Option<Kind>)
    | InPayload(kind: Kind, fin: bool, left: nat)

  /** The type of a message is that of its first frame. */
  predicate IsMessage(k: Kind) {
    k.Text? || k.Binary?
  }

  type Decoder = d: DecoderState |
    match d
    case Boundary(message) => message.Some? ==> IsMessage(message.value)
    case InPayload(kind, _, left) => IsMessage(kind) && left > 0
    witness Boundary(None)

  function AfterData(kind: Kind, fin: bool, left: nat): Decoder
    requires IsMessage(kind)
  {
    if left > 0 then InPayload(kind, fin, left) else Boundary(if fin then None else Some(kind))
  }

  /** `Incomplete` consumes nothing. A delivery consumes `taken` bytes, may hand
      out only part of a data payload, and marks the end of a message. */
  datatype ReadResult =
    | Incomplete
    | Failed
    | Delivered(next: Decoder, taken: nat, kind: Kind, payload: Bytes, end: bool)

  /** `ws.read` on the undecoded bytes `raw`. `room` bounds the data payload
      that this call hands out; inside a payload at least one byte is taken.
      Control frames are delivered whole; a continuation frame carries the type
      of the message it continues (RFC 6455 sections 5.2, 5.4 and 5.5). */
  function Read(parse: HeaderParser, dec: Decoder, raw: Bytes, room: nat): (r: ReadResult)
    requires SelfDelimiting(parse) && raw != []
    ensures r.Delivered? ==> 1 <= r.taken <= |raw| && |r.payload| <= r.taken
  {
    match dec
    case InPayload(kind, fin, left) =>
      var n := Min(left, Min(|raw|, if room == 0 then 1 else room));
      Delivered(AfterData(kind, fin, left - n), n, kind, raw[..n], fin && n == left)
    case Boundary(message) =>
      match parse(raw)
      case Short => Incomplete
      case Malformed => Failed
      case Parsed(h) =>
        if IsControl(h.kind) then
          if |raw| < h.size + h.len then Incomplete
          else Delivered(dec, h.size + h.len, h.kind, raw[h.size..h.size + h.len], true)
        else if h.kind.Continuation? != message.Some? then Failed
        else
          var kind := if h.kind.Continuation? then message.value else h.kind;
          var n := Min(h.len, Min(|raw| - h.size, room));
          Delivered(AfterData(kind, h.fin, h.len - n), h.size + n, kind,
                    raw[h.size..h.size + n], h.fin && n == h.len)
  }

  // ── the receiving state ────────────────────────────────────────────────

  /** The receiving side as a value: decoder, partial text message, undecoded
      bytes, and everything delivered so far. `dead` records that the session
      has ended in a protocol error or a close frame. */
  datatype Rx = Rx(
    dec: Decoder,
    partial: Bytes,
    raw: Bytes,
    texts: seq<Bytes>,
    pings: seq<Bytes>,
    dead: bool)
  {
    function More(bytes: Bytes): Rx {
      this.(raw := raw + bytes)
    }
  }

  function Start(raw: Bytes): Rx {
    Rx(Boundary(None), [], raw, [], [], false)
  }

  /** What the client does with a delivery: text payload extends the partial
      message, its end completes a message, pings are recorded for answering,
      a close ends the session, the rest is ignored. */
  function Absorb(rx: Rx, kind: Kind, payload: Bytes, end: bool): Rx {
    match kind
    case Text =>
      if end then rx.(texts := rx.texts + [rx.partial + payload], partial := [])
      else rx.(partial := rx.partial + payload)
    case Ping => rx.(pings := rx.pings + [payload])
    case Close => rx.(dead := true)
    case _ => rx
  }

  /** One pass of the receive loop with a buffer of `room` bytes. */
  function Step(parse: HeaderParser, rx: Rx, room: nat): Rx
    requires SelfDelimiting(parse) && rx.raw != []
  {
    match Read(parse, rx.dec, rx.raw, room)
    case Incomplete => rx
    case Failed => rx.(dead := true)
    case Delivered(next, taken, kind, payload, end) =>
      Absorb(rx.(dec := next, raw := rx.raw[taken..]), kind, payload, end)
  }

  predicate CanStep(parse: HeaderParser, rx: Rx)
    requires SelfDelimiting(parse)
  {
    !rx.dead && rx.raw != [] && !Read(parse, rx.dec, rx.raw, |rx.raw|).Incomplete?
  }

  /** Everything that can be decoded has been decoded. */
  function Drain(parse: HeaderParser, rx: Rx): (r: Rx)
    requires SelfDelimiting(parse)
    ensures !CanStep(parse, r)
    decreases |rx.raw|, !rx.dead
  {
    if CanStep(parse, rx) then Drain(parse, Step(parse, rx, |rx.raw|)) else rx
  }
}
