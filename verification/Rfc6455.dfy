/** RFC 6455 as the reference: the header format of section 5.2 for frames sent
    by a server, and what a sequence of whole frames means (section 5.4). */
module Rfc6455 {
  import opened Wrappers
  import opened Frames

  // ── the header format ──────────────────────────────────────────────────

  function KindOf(opcode: int): Option<Kind> {
    match opcode
    case 0 => Some(Continuation)
    case 1 => Some(Text)
    case 2 => Some(Binary)
    case 8 => Some(Close)
    case 9 => Some(Ping)
    case 10 => Some(Pong)
    case _ => None
  }

  /** Big-endian number. */
  function Number(b: Bytes): nat {
    if b == [] then 0 else 256 * Number(b[..|b| - 1]) + b[|b| - 1] as nat
  }

  /** Bytes of extended payload length announced by the seven-bit length. */
  function Extra(len7: nat): nat {
    if len7 == 126 then 2 else if len7 == 127 then 8 else 0
  }

  /** The header of an unmasked frame. Reserved bits, unknown opcodes, masked
      server frames and long or fragmented control frames are malformed. */
  function ParseHeader(b: Bytes): Front {
    if |b| < 2 then Short
    else
      var b0, b1 := b[0] as nat, b[1] as nat;
      var kind := KindOf(b0 % 16);
      var size := 2 + Extra(b1 % 128);
      if (b0 / 16) % 8 != 0 || kind.None? || b1 >= 128 then Malformed
      else if IsControl(kind.value) && (b1 > 125 || b0 < 128) then Malformed
      else if |b| < size then Short
      else Parsed(Header(size, kind.value, b0 >= 128, if size == 2 then b1 else Number(b[2..size])))
  }

  /** The header format meets the contract of the decoder. */
  lemma HeadersAreSelfDelimiting()
    ensures SelfDelimiting(ParseHeader)
  {
    forall b: Bytes, more: Bytes | !ParseHeader(b).Short? ensures ParseHeader(b + more) == ParseHeader(b) {
      var size := 2 + Extra(b[1] as nat % 128);
      assert |b| >= size ==> (b + more)[2..size] == b[2..size];
    }
  }

  // ── whole frames ───────────────────────────────────────────────────────

  datatype Frame = Frame(head: Bytes, kind: Kind, fin: bool, payload: Bytes)

  function Wire(fs: seq<Frame>): Bytes {
    if fs == [] then [] else fs[0].head + fs[0].payload + Wire(fs[1..])
  }

  /** The header bytes announce the frame they belong to. */
  predicate Framed(parse: HeaderParser, f: Frame) {
    parse(f.head) == Parsed(Header(|f.head|, f.kind, f.fin, |f.payload|))
  }

  function After(f: Frame, open: Option<Kind>): Option<Kind> {
    if IsControl(f.kind) then open
    else if f.fin then None
    else if f.kind.Continuation? then open
    else Some(f.kind)
  }

  /** Fragments follow their first frame; control frames may stand anywhere,
      other messages may not. No frame closes the session. */
  predicate Legal(parse: HeaderParser, fs: seq<Frame>, open: Option<Kind>) {
    fs == [] ||
    (&& Framed(parse, fs[0])
     && !fs[0].kind.Close?
     && (!IsControl(fs[0].kind) ==> (fs[0].kind.Continuation? <==> open.Some?))
     && Legal(parse, fs[1..], After(fs[0], open)))
  }

  /** The data frames, without the control frames between them. */
  function DataFrames(fs: seq<Frame>): seq<Frame> {
    if fs == [] then []
    else if IsControl(fs[0].kind) then DataFrames(fs[1..])
    else [fs[0]] + DataFrames(fs[1..])
  }

  /** A message: the type of its first frame and the payloads of all its
      frames. */
  datatype Message = Message(kind: Kind, data: Bytes)

  /** The messages completed by `ds`, when `sofar` is already begun. */
  function Messages(ds: seq<Frame>, sofar: Option<Message>): seq<Message> {
    if ds == [] then []
    else
      var begun := if sofar.Some? then sofar.value else Message(ds[0].kind, []);
      var grown := begun.(data := begun.data + ds[0].payload);
      if ds[0].fin then [grown] + Messages(ds[1..], None) else Messages(ds[1..], Some(grown))
  }

  function TextsAmong(ms: seq<Message>): seq<Bytes> {
    if ms == [] then []
    else if ms[0].kind.Text? then [ms[0].data] + TextsAmong(ms[1..])
    else TextsAmong(ms[1..])
  }

  /** The text messages that a sequence of frames carries. */
  function TextMessages(fs: seq<Frame>): seq<Bytes> {
    TextsAmong(Messages(DataFrames(fs), None))
  }

  function PingPayloads(fs: seq<Frame>): seq<Bytes> {
    if fs == [] then []
    else if fs[0].kind.Ping? then [fs[0].payload] + PingPayloads(fs[1..])
    else PingPayloads(fs[1..])
  }
}
