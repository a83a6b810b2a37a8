/** What surrounds the mesh client: the gateway, the socket's schedule, and the
    codecs that are not part of the repository. */
module Link {
  import opened Wrappers
  import opened Protocol
  import opened Frames

  /** A frame the client has queued. */
  datatype OutFrame = TextFrame(text: string) | PongFrame(payload: Bytes)

  /** A gateway text message, already parsed: the two events the client acts
      on, and everything else, unparsable text included. */
  datatype Msg = AgentText(delta: string) | TurnComplete | Other

  /** How the upgrade response is judged: more bytes needed, accepted with the
      length of the response head, or refused. */
  datatype Upgrade = HeaderIncomplete | Accepted(size: nat) | Refused

  /** Everything outside the client. All fields are arbitrary: results about
      the client hold for every gateway, schedule and codec that meets
      `Sane`. */
  datatype Environment = Environment(
    parse: HeaderParser,                  // frame headers
    accept: Bytes -> Upgrade,             // client_accept
    wire: (nat, OutFrame) -> Bytes,       // ws.write for the n-th frame
    utf8: Bytes -> Option<string>,        // String::from_utf8
    classify: string -> Msg,              // JSON to event
    sessionOf: string -> Option<u64>,     // JSON to session_init
    gateway: seq<string> -> Bytes,        // bytes sent after the last of these prompts
    arrivals: nat -> nat,                 // bytes that have come in by the n-th pump
    slice: nat -> nat,                    // bytes per recv call
    grain: nat -> nat,                    // payload bytes per read
    accepts: nat -> nat)                  // bytes per send call
  {
    ghost predicate Sane() {
      && SelfDelimiting(parse)
      && (forall b: Bytes :: accept(b).Accepted? ==> accept(b).size <= |b|)
      && (forall b: Bytes, more: Bytes {:trigger accept(b + more)} ::
            !accept(b).HeaderIncomplete? ==> accept(b + more) == accept(b))
    }
  }

  /** All bytes the gateway sends, once it has seen `prompts`. */
  function Stream(env: Environment, prompts: seq<string>): Bytes {
    if prompts == [] then env.gateway([])
    else Stream(env, prompts[..|prompts| - 1]) + env.gateway(prompts)
  }

  /** The prompts among the queued frames. */
  function PromptsIn(frames: seq<OutFrame>): seq<string> {
    if frames == [] then []
    else
      var before, last := PromptsIn(frames[..|frames| - 1]), frames[|frames| - 1];
      if last.TextFrame? then before + [last.text] else before
  }

  function PongsIn(frames: seq<OutFrame>): seq<Bytes> {
    if frames == [] then []
    else
      var before, last := PongsIn(frames[..|frames| - 1]), frames[|frames| - 1];
      if last.PongFrame? then before + [last.payload] else before
  }

  /** The bytes of the queued frames, in order. */
  function WireOut(env: Environment, frames: seq<OutFrame>): Bytes {
    if frames == [] then []
    else
      var n := |frames| - 1;
      WireOut(env, frames[..n]) + env.wire(n, frames[n])
  }

  lemma FramesAppend(env: Environment, frames: seq<OutFrame>, f: OutFrame)
    ensures PromptsIn(frames + [f]) == if f.TextFrame? then PromptsIn(frames) + [f.text] else PromptsIn(frames)
    ensures PongsIn(frames + [f]) == if f.PongFrame? then PongsIn(frames) + [f.payload] else PongsIn(frames)
    ensures WireOut(env, frames + [f]) == WireOut(env, frames) + env.wire(|frames|, f)
  {
    assert (frames + [f])[..|frames|] == frames;
  }

  lemma {:induction false} StreamGrows(env: Environment, prompts: seq<string>, more: seq<string>)
    ensures Stream(env, prompts) <= Stream(env, prompts + more)
    decreases |more|
  {
    if more == [] {
      assert prompts + more == prompts;
    } else {
      var n := |more| - 1;
      assert (prompts + more)[..|prompts + more| - 1] == prompts + more[..n];
      StreamGrows(env, prompts, more[..n]);
    }
  }
}
