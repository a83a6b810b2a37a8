/** A gateway that keeps its part of the contract, and what the replies are
    then: one per prompt, the deltas of that prompt's own turn. */
module Conversation {
  import opened Seqs
  import opened Wrappers
  import opened Protocol
  import opened Text
  import opened Turn
  import opened Verdicts
  import opened SpellingLaws
  import opened Driver
  import opened DriverLaws
  import opened Watchdog
  import opened Frames
  import opened FrameLaws
  import opened Rfc6455
  import opened RfcLaws
  import opened Link
  import opened GatewayTurns
  import opened Agent
  import opened EndToEnd

  // ── turns as message sequences ─────────────────────────────────────────

  /** All deltas, concatenated. */
  function Said(ms: seq<Msg>): string {
    if ms == [] then ""
    else
      var n := |ms| - 1;
      Said(ms[..n]) + (if ms[n].AgentText? then ms[n].delta else "")
  }

  predicate NoEnd(ms: seq<Msg>) {
    forall i :: 0 <= i < |ms| ==> !ms[i].TurnComplete?
  }

  predicate Quiet(ms: seq<Msg>) {
    forall i :: 0 <= i < |ms| ==> ms[i].Other?
  }

  /** Deltas and messages to ignore, the end of the turn, messages to ignore. */
  predicate EndsAt(ms: seq<Msg>, k: nat) {
    k < |ms| && ms[k].TurnComplete? && NoEnd(ms[..k]) && Quiet(ms[k + 1..])
  }

  ghost predicate OneTurn(ms: seq<Msg>) {
    exists k :: EndsAt(ms, k)
  }

  lemma {:induction false} DeltasAppend(a: seq<Msg>, ms: seq<Msg>)
    requires NoEnd(ms)
    ensures Replies(a + ms) == Replies(a) && OpenReply(a + ms) == OpenReply(a) + Said(ms)
    decreases |ms|
  {
    if ms == [] {
      assert a + ms == a;
    } else {
      var n := |ms| - 1;
      assert a + ms == (a + ms[..n]) + [ms[n]];
      DeltasAppend(a, ms[..n]);
      TurnAppend(a + ms[..n], ms[n]);
      Regroup(OpenReply(a), Said(ms[..n]), if ms[n].AgentText? then ms[n].delta else "");
    }
  }

  lemma {:induction false} SaidConcat(a: seq<Msg>, b: seq<Msg>)
    ensures Said(a + b) == Said(a) + Said(b)
    decreases |b|
  {
    if b == [] {
      assert a + b == a;
    } else {
      var n := |b| - 1;
      Last(a + b[..n], b[n]);
      assert a + b == (a + b[..n]) + [b[n]];
      SaidConcat(a, b[..n]);
      Regroup(Said(a), Said(b[..n]), if b[n].AgentText? then b[n].delta else "");
    }
  }

  lemma {:induction false} QuietSaysNothing(ms: seq<Msg>)
    requires Quiet(ms)
    ensures Said(ms) == ""
  {
    if ms == [] {
    } else {
      QuietSaysNothing(ms[..|ms| - 1]);
    }
  }

  /** A whole turn adds one reply, everything said in it. */
  lemma WholeTurn(a: seq<Msg>, ms: seq<Msg>)
    requires OneTurn(ms) && OpenReply(a) == ""
    ensures Replies(a + ms) == Replies(a) + [Said(ms)] && OpenReply(a + ms) == ""
  {
    var k: nat :| EndsAt(ms, k);
    TurnParts(a, ms, k);
  }

  lemma TurnParts(a: seq<Msg>, ms: seq<Msg>, k: nat)
    requires EndsAt(ms, k) && OpenReply(a) == ""
    ensures Replies(a + ms) == Replies(a) + [Said(ms)] && OpenReply(a + ms) == ""
  {
    hide OpenReply, Replies, Said;
    var said, end, rest := ms[..k], ms[k], ms[k + 1..];
    Regroup(a, said, [end]);
    Regroup(a, said + [end], rest);
    assert ms == (said + [end]) + rest;
    DeltasAppend(a, said);
    TurnAppend(a + said, end);
    DeltasAppend((a + said) + [end], rest);
    QuietSaysNothing(rest);
    SaidConcat(said + [end], rest);
    SaidAppend(said, end);
    assert "" + Said(said) == Said(said) && Said(said) + "" == Said(said);
  }

  lemma SaidAppend(ms: seq<Msg>, m: Msg)
    ensures Said(ms + [m]) == Said(ms) + (if m.AgentText? then m.delta else "")
  {
    Last(ms, m);
  }

  lemma {:induction false} MsgsConcat(env: Environment, a: seq<Bytes>, b: seq<Bytes>)
    ensures Msgs(env, a + b) == Msgs(env, a) + Msgs(env, b)
    decreases |b|
  {
    if b == [] {
      assert a + b == a;
    } else {
      var n := |b| - 1;
      assert a + b == (a + b[..n]) + [b[n]];
      MsgsConcat(env, a, b[..n]);
      MsgsAppend(env, a + b[..n], b[n]);
      Regroup(Msgs(env, a), Msgs(env, b[..n]), [MsgOf(env, b[n])]);
    }
  }

  // ── a gateway that answers ─────────────────────────────────────────────

  /** Whole legal frames, no message left open. */
  predicate Whole(parse: HeaderParser, fs: seq<Frame>) {
    Legal(parse, fs, None) && SofarEnd(fs, None) == None
  }

  /** After the upgrade response the gateway sends the frames `opening`: the
      messages that open the session and then nothing that counts; after each
      prompt it sends the frames of one turn, fragmented as it likes and with
      whatever control frames between. */
  ghost predicate Converses(s: Session, opening: seq<Frame>, turn: seq<string> -> seq<Frame>) {
    && s.skip <= |s.env.gateway([])| && s.env.gateway([])[s.skip..] == Wire(opening)
    && Whole(s.env.parse, opening) && s.base <= |TextMessages(opening)|
    && Quiet(Msgs(s.env, TextMessages(opening)[s.base..]))
    && forall prompts :: prompts != [] ==> AnswersWith(s, prompts, turn(prompts))
  }

  ghost predicate AnswersWith(s: Session, prompts: seq<string>, fs: seq<Frame>) {
    && s.env.gateway(prompts) == Wire(fs) && Whole(s.env.parse, fs)
    && OneTurn(Msgs(s.env, TextMessages(fs)))
  }

  /** The messages of the session, turn by turn. */
  function Spoken(opening: seq<Frame>, turn: seq<string> -> seq<Frame>, prompts: seq<string>): seq<Bytes> {
    if prompts == [] then TextMessages(opening)
    else Spoken(opening, turn, prompts[..|prompts| - 1]) + TextMessages(turn(prompts))
  }

  /** More whole frames after what has been decoded. */
  lemma MoreFrames(parse: HeaderParser, sofar: Bytes, fs: seq<Frame>)
    requires SelfDelimiting(parse) && Whole(parse, fs)
    requires AtBoundary(Drain(parse, Start(sofar)), None) && Drain(parse, Start(sofar)).raw == []
    ensures var r := Drain(parse, Start(sofar + Wire(fs)));
      && AtBoundary(r, None) && r.raw == []
      && r.texts == Drain(parse, Start(sofar)).texts + TextMessages(fs)
  {
    hide Drain, SelfDelimiting, Legal, Messages, TextsAmong, DataFrames, Wire;
    var here := Drain(parse, Start(sofar));
    DrainInChunks(parse, Start(sofar), Wire(fs));
    assert Start(sofar).More(Wire(fs)) == Start(sofar + Wire(fs));
    assert here.More(Wire(fs)).raw == Wire(fs);
    FramesDecode(parse, fs, here.More(Wire(fs)), None);
  }

  lemma NothingDecoded(parse: HeaderParser)
    requires SelfDelimiting(parse)
    ensures Drain(parse, Start([])) == Start([]) && AtBoundary(Start([]), None)
  {
  }

  /** The stream's messages are those of the turns. */
  lemma {:induction false} StreamSpeaks(
      s: Session, opening: seq<Frame>, turn: seq<string> -> seq<Frame>, prompts: seq<string>)
    requires s.env.Sane() && Converses(s, opening, turn)
    ensures s.skip <= |Stream(s.env, prompts)|
    ensures var r := Drain(s.env.parse, Start(Stream(s.env, prompts)[s.skip..]));
      AtBoundary(r, None) && r.raw == [] && r.texts == Spoken(opening, turn, prompts)
    decreases |prompts|
  {
    hide Drain, SelfDelimiting, Whole, Wire, TextMessages, OneTurn, Msgs, AtBoundary;
    if prompts == [] {
      NothingDecoded(s.env.parse);
      MoreFrames(s.env.parse, [], opening);
      assert [] + Wire(opening) == Wire(opening);
      assert [] + TextMessages(opening) == TextMessages(opening);
    } else {
      var before := prompts[..|prompts| - 1];
      StreamSpeaks(s, opening, turn, before);
      assert AnswersWith(s, prompts, turn(prompts));
      MoreFrames(s.env.parse, Stream(s.env, before)[s.skip..], turn(prompts));
      assert Stream(s.env, prompts)[s.skip..] == Stream(s.env, before)[s.skip..] + Wire(turn(prompts));
    }
  }

  /** The messages of the session after its opening, cut into turns. */
  lemma {:induction false} SpokenReplies(
      s: Session, opening: seq<Frame>, turn: seq<string> -> seq<Frame>, prompts: seq<string>)
    requires s.env.Sane() && Converses(s, opening, turn)
    ensures s.base <= |Spoken(opening, turn, prompts)|
    ensures var replies := RepliesRead(s, Spoken(opening, turn, prompts));
      && |replies| == |prompts|
      && (prompts != [] ==> replies[|prompts| - 1] == Said(Msgs(s.env, TextMessages(turn(prompts)))))
    ensures OpenReply(Msgs(s.env, Spoken(opening, turn, prompts)[s.base..])) == ""
    decreases |prompts|
  {
    hide SelfDelimiting, Whole, Wire, TextMessages, OneTurn, Msgs, Replies, OpenReply, Said;
    if prompts == [] {
      OpeningIsQuiet(Msgs(s.env, TextMessages(opening)[s.base..]));
    } else {
      var before := prompts[..|prompts| - 1];
      var sofar, new_ := Spoken(opening, turn, before), TextMessages(turn(prompts));
      SpokenReplies(s, opening, turn, before);
      assert AnswersWith(s, prompts, turn(prompts));
      assert (sofar + new_)[s.base..] == sofar[s.base..] + new_;
      MsgsConcat(s.env, sofar[s.base..], new_);
      WholeTurn(Msgs(s.env, sofar[s.base..]), Msgs(s.env, new_));
    }
  }

  lemma OpeningIsQuiet(ms: seq<Msg>)
    requires Quiet(ms)
    ensures Replies(ms) == [] && OpenReply(ms) == ""
  {
    DeltasAppend([], ms);
    QuietSaysNothing(ms);
    assert [] + ms == ms;
  }

  /** One turn per prompt. A gateway that keeps its part completes exactly one
      turn for every prompt, and the reply to the last prompt is everything
      said in that prompt's own turn; its verdict is the step's verdict. */
  lemma OneReplyPerPrompt(s: Session, opening: seq<Frame>, turn: seq<string> -> seq<Frame>, prompts: seq<string>)
    requires s.env.Sane() && Converses(s, opening, turn)
    ensures |RepliesTo(s, prompts)| == |prompts|
    ensures prompts != [] ==>
      var said := Said(Msgs(s.env, TextMessages(turn(prompts))));
      RepliesTo(s, prompts)[|prompts| - 1] == said && VerdictOn(s, prompts) == VerdictOf(said)
  {
    hide SelfDelimiting, Whole, Wire, TextMessages, OneTurn, Msgs, Replies, Said, VerdictOf, Drain, RepliesRead, Spoken;
    StreamSpeaks(s, opening, turn, prompts);
    SpokenReplies(s, opening, turn, prompts);
  }

  // ── such a gateway exists ──────────────────────────────────────────────

  /** Unfragmented text frames of one byte each. */
  function OneByteTexts(data: seq<byte>): seq<Frame> {
    if data == [] then [] else [Frame([129, 1], Kind.Text, true, [data[0]])] + OneByteTexts(data[1..])
  }

  function Singles(data: seq<byte>): seq<Bytes> {
    if data == [] then [] else [[data[0]]] + Singles(data[1..])
  }

  lemma {:induction false} OneByteTextsAreWhole(data: seq<byte>)
    ensures Whole(ParseHeader, OneByteTexts(data)) && TextMessages(OneByteTexts(data)) == Singles(data)
  {
    if data == [] {
    } else {
      var fs := OneByteTexts(data);
      OneByteTextsAreWhole(data[1..]);
      assert fs[1..] == OneByteTexts(data[1..]);
      assert Framed(ParseHeader, fs[0]);
      MessagesStep(fs, None);
      assert [] + fs[0].payload == [data[0]];
      assert TextIn(fs[0], None) == [[data[0]]];
    }
  }

  lemma SmallTexts()
    ensures Singles([0]) == [[0]] && Singles([1, 2]) == [] + [[1]] + [[2]]
  {
    assert [1, 2][1..] == [2];
  }

  /** The contract can be met: a gateway that opens with one message and
      answers every prompt with one delta and the end of the turn. */
  lemma AGatewayThatConverses() returns (s: Session, opening: seq<Frame>, turn: seq<string> -> seq<Frame>)
    ensures s.env.Sane() && s.env.parse == ParseHeader && Converses(s, opening, turn)
  {
    hide ParseHeader, Whole, Wire, OneByteTexts, TextMessages, SelfDelimiting, Replies, OpenReply;
    var answer := OneByteTexts([1, 2]);
    opening, turn := OneByteTexts([0]), prompts => answer;
    var first, next := Wire(opening), Wire(answer);
    var env := Environment(
      ParseHeader,
      b => Accepted(0),
      (n, f) => [],
      b => if b == [2] then Some("end") else Some("delta"),
      text => if text == "end" then TurnComplete else AgentText("."),
      text => None,
      prompts => if prompts == [] then first else next,
      n => n, n => n, n => n, n => n);
    s := GatewayTurns.Session.Session(env, 0, 1);
    HeadersAreSelfDelimiting();
    OneByteTextsAreWhole([0]);
    OneByteTextsAreWhole([1, 2]);
    SmallTexts();
    MsgsAppend(env, [], [1]);
    MsgsAppend(env, [] + [[1]], [2]);
    assert EndsAt(Msgs(env, TextMessages(answer)), 1);
    assert forall prompts :: prompts != [] ==> AnswersWith(s, prompts, turn(prompts));
  }

  // ── the synchronous driver of a dialogue ───────────────────────────────

  /** The first `n` turns of a dialogue: while the goal is acting, send the
      directive, and take the verdict in everything said in the turn. */
  function Dialogue(s: Session, turn: seq<string> -> seq<Frame>, g: Goal, n: nat): seq<TurnResult>
    requires g.Valid()
  {
    if n == 0 then []
    else
      var rs := Dialogue(s, turn, g, n - 1);
      var now := Run(g, rs);
      if !now.Acting() then rs
      else
        var prompts := PromptsFor(g, rs) + [StepDirective(now.Context())];
        rs + [Completed(VerdictOf(Said(Msgs(s.env, TextMessages(turn(prompts))))))]
  }

  /** Everything said in the turn that follows `n` turns of a dialogue. */
  function SaidNext(s: Session, turn: seq<string> -> seq<Frame>, g: Goal, n: nat): string
    requires g.Valid()
  {
    var rs := Dialogue(s, turn, g, n);
    Said(Msgs(s.env, TextMessages(turn(PromptsFor(g, rs) + [StepDirective(Run(g, rs).Context())]))))
  }

  lemma DialogueTurn(s: Session, turn: seq<string> -> seq<Frame>, g: Goal, n: nat)
    requires g.Valid() && Run(g, Dialogue(s, turn, g, n)).Acting()
    ensures Dialogue(s, turn, g, n + 1) == Dialogue(s, turn, g, n) + [Completed(VerdictOf(SaidNext(s, turn, g, n)))]
  {
  }

  /** A turn without any verdict line goes on. Below its budget the goal moves
      to the next step, still acting and without a steer, and announces it; at
      its budget it is done. */
  lemma VerdictlessTurnGoesOn(s: Session, turn: seq<string> -> seq<Frame>, g: Goal, n: nat)
    requires g.Valid() && Run(g, Dialogue(s, turn, g, n)).Acting()
    requires var lines := Lines(SaidNext(s, turn, g, n)); forall j :: 0 <= j < |lines| ==> Unmarked(lines[j])
    ensures var rs, rs' := Dialogue(s, turn, g, n), Dialogue(s, turn, g, n + 1);
      var now, next := Run(g, rs), Run(g, rs');
      && |FullLog(g, rs')| == |FullLog(g, rs)| + 1 && FullLog(g, rs) <= FullLog(g, rs')
      && var e := FullLog(g, rs')[|FullLog(g, rs)|];
      if now.step < g.maxSteps then
        next.Acting() && next.step == now.step + 1 && next.steer == None
        && Tells(e, g, GoalState.Acting, now.step + 1, "")
      else
        next.state.Done? && next.step == now.step
        && Tells(e, g, GoalState.Done, now.step, "step budget reached")
  {
    hide Dialogue, SaidNext, Run, Log, Lines, VerdictOf, ParsedVerdict, Unmarked;
    var rs := Dialogue(s, turn, g, n);
    UnmarkedReplyContinues(SaidNext(s, turn, g, n));
    DialogueTurn(s, turn, g, n);
    RunAppend(g, rs, Completed(Verdict.Continue(None)));
    Regroup([g.Event("")], Log(g, rs), Emits(Run(g, rs), Completed(Verdict.Continue(None))));
  }

  lemma {:induction false} SynchronousIsDialogue(
      s: Session, opening: seq<Frame>, turn: seq<string> -> seq<Frame>, g: Goal, n: nat)
    requires s.env.Sane() && g.Valid() && Converses(s, opening, turn)
    ensures Synchronous(s, g, n) == Dialogue(s, turn, g, n)
  {
    hide TextMessages, Msgs, Said, VerdictOf, VerdictOn, Run, PromptsFor, StepDirective, Converses, SelfDelimiting;
    if n == 0 {
    } else {
      SynchronousIsDialogue(s, opening, turn, g, n - 1);
      var rs := Dialogue(s, turn, g, n - 1);
      OneReplyPerPrompt(s, opening, turn, PromptsFor(g, rs) + [StepDirective(Run(g, rs).Context())]);
    }
  }

  /** With a gateway that keeps its part, the log that every schedule without a
      time-out produces is the log of the dialogue. */
  lemma LoopRefinesDialogue(s: Session, opening: seq<Frame>, turn: seq<string> -> seq<Frame>,
                            g: Goal, t0: nat, timeout: u64, looks: seq<Look>)
    requires s.env.Sane() && Converses(s, opening, turn)
    requires g.Valid() && g.step == 1 && g.steer == None
    requires Ran(g, t0, timeout, looks) && !Watchdog.After(g, t0, timeout, looks).goal.Acting()
    requires Faithful(s, Contexts(g, t0, timeout, looks), Answers(looks))
    requires !EndedInStall(g, t0, timeout, looks)
    ensures FullLog(g, Results(g, t0, timeout, looks)) == FullLog(g, Dialogue(s, turn, g, g.maxSteps))
  {
    hide *;
    LoopRefinesSynchronous(s, g, t0, timeout, looks);
    LogOfSynchronous(s, g);
    SynchronousIsDialogue(s, opening, turn, g, g.maxSteps);
  }
}
