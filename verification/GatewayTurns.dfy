/** The gateway's side of the conversation: the stream's text messages, cut
    into turns, and what it means for a poll history to be answered by it. */
module GatewayTurns {
  import opened Seqs
  import opened Wrappers
  import opened Turn
  import opened Verdicts
  import opened Frames
  import opened FrameLaws
  import opened Link

  function MsgOf(env: Environment, b: Bytes): Msg {
    match env.utf8(b)
    case Some(text) => env.classify(text)
    case None => Other
  }

  function Msgs(env: Environment, texts: seq<Bytes>): seq<Msg> {
    if texts == [] then [] else Msgs(env, texts[..|texts| - 1]) + [MsgOf(env, texts[|texts| - 1])]
  }

  /** The deltas since the last turn ended. */
  function OpenReply(ms: seq<Msg>): string {
    if ms == [] then ""
    else
      var before := OpenReply(ms[..|ms| - 1]);
      match ms[|ms| - 1]
      case AgentText(delta) => before + delta
      case TurnComplete => ""
      case Other => before
  }

  /** The replies of the completed turns: per turn its concatenated deltas. */
  function Replies(ms: seq<Msg>): seq<string> {
    if ms == [] then []
    else
      var n := |ms| - 1;
      if ms[n].TurnComplete? then Replies(ms[..n]) + [OpenReply(ms[..n])] else Replies(ms[..n])
  }

  lemma MsgsAppend(env: Environment, texts: seq<Bytes>, t: Bytes)
    ensures Msgs(env, texts + [t]) == Msgs(env, texts) + [MsgOf(env, t)]
  {
    assert (texts + [t])[..|texts|] == texts;
  }

  lemma TurnAppend(ms: seq<Msg>, m: Msg)
    ensures OpenReply(ms + [m]) ==
      match m { case AgentText(delta) => OpenReply(ms) + delta case TurnComplete => "" case Other => OpenReply(ms) }
    ensures Replies(ms + [m]) == if m.TurnComplete? then Replies(ms) + [OpenReply(ms)] else Replies(ms)
  {
    assert (ms + [m])[..|ms|] == ms;
  }

  /** Further messages do not change the turns already completed. */
  lemma {:induction false} RepliesGrow(env: Environment, texts: seq<Bytes>, all: seq<Bytes>)
    requires texts <= all
    ensures Replies(Msgs(env, texts)) <= Replies(Msgs(env, all))
    decreases |all|
  {
    if texts == all {
    } else {
      var n := |all| - 1;
      assert all == all[..n] + [all[n]];
      RepliesGrow(env, texts, all[..n]);
      MsgsAppend(env, all[..n], all[n]);
      TurnAppend(Msgs(env, all[..n]), MsgOf(env, all[n]));
    }
  }

  // ── a session ──────────────────────────────────────────────────────────

  /** A session: its environment, the length of the upgrade response, and the
      number of messages read before the first turn. */
  datatype Session = Session(env: Environment, skip: nat, base: nat)

  /** Every text message of the gateway's stream after these prompts. */
  ghost function AllTexts(s: Session, prompts: seq<string>): seq<Bytes>
    requires s.env.Sane()
  {
    var stream := Stream(s.env, prompts);
    if s.skip <= |stream| then Drain(s.env.parse, Start(stream[s.skip..])).texts else []
  }

  /** The replies of all turns that the gateway completes after these prompts,
      read off the whole stream at once. */
  ghost function RepliesTo(s: Session, prompts: seq<string>): seq<string>
    requires s.env.Sane()
  {
    var all := AllTexts(s, prompts);
    if s.base <= |all| then RepliesRead(s, all) else []
  }

  /** The replies completed in the first `n` bytes of the stream. */
  ghost function RepliesBy(s: Session, prompts: seq<string>, n: nat): seq<string>
    requires s.env.Sane()
  {
    var stream := Stream(s.env, prompts);
    if s.skip <= n <= |stream| then
      var all := Drain(s.env.parse, Start(stream[s.skip..n])).texts;
      if s.base <= |all| then RepliesRead(s, all) else []
    else []
  }

  /** The reply to the last of these prompts is complete in the first `n` bytes
      of the stream. */
  ghost predicate RepliedBy(s: Session, prompts: seq<string>, n: nat)
    requires s.env.Sane()
  {
    |prompts| <= |RepliesBy(s, prompts, Min(n, |Stream(s.env, prompts)|))|
  }

  /** More bytes complete more replies. */
  lemma RepliesByGrow(s: Session, prompts: seq<string>, m: nat, n: nat)
    requires s.env.Sane() && m <= n <= |Stream(s.env, prompts)|
    ensures RepliesBy(s, prompts, m) <= RepliesBy(s, prompts, n)
  {
    hide Drain, Stream, RepliesRead, SelfDelimiting;
    var stream := Stream(s.env, prompts);
    if s.skip <= m {
      var a, b := stream[s.skip..m], stream[m..n];
      assert stream[s.skip..n] == a + b;
      LongerStream(s.env.parse, a, b);
      if s.base <= |Drain(s.env.parse, Start(a)).texts| {
        RepliesReadGrow(s, Drain(s.env.parse, Start(a)).texts, Drain(s.env.parse, Start(a + b)).texts);
      }
    }
  }

  /** The gateway has answered the last of these prompts, and the answer reads
      as `v`. */
  ghost predicate Answered(s: Session, prompts: seq<string>, v: Verdict)
    requires s.env.Sane()
  {
    var replies := RepliesTo(s, prompts);
    0 < |prompts| <= |replies| && v == VerdictOf(replies[|prompts| - 1])
  }

  // ── poll histories ─────────────────────────────────────────────────────

  /** A turn is in flight exactly when the last poll came back pending. */
  predicate InFlight(answered: seq<TurnResult>) {
    answered != [] && answered[|answered| - 1].Pending?
  }

  /** The prompts sent over a poll history: one whenever no turn is in flight. */
  function PromptsSent(asked: seq<TickContext>, answered: seq<TurnResult>): seq<string>
    requires |asked| == |answered|
  {
    if asked == [] then []
    else
      var n := |asked| - 1;
      var before := PromptsSent(asked[..n], answered[..n]);
      if InFlight(answered[..n]) then before else before + [StepDirective(asked[n])]
  }

  /** Every poll of the history was answered by the gateway: pending when the
      prompt goes out, and otherwise pending or the verdict of the reply to
      the prompt in flight. */
  ghost predicate Faithful(s: Session, asked: seq<TickContext>, answered: seq<TurnResult>)
    requires s.env.Sane()
  {
    && |asked| == |answered|
    && (asked != [] ==>
          var n := |asked| - 1;
          && Faithful(s, asked[..n], answered[..n])
          && (answered[n].Pending? || (
                && InFlight(answered[..n]) && answered[n].Completed?
                && Answered(s, PromptsSent(asked[..n], answered[..n]), answered[n].verdict))))
  }

  /** Every poll that waited for a turn completed it if the reply had come in:
      poll `i` looked at what had arrived by pump number `pumped[i]`. */
  ghost predicate Timely(s: Session, asked: seq<TickContext>, answered: seq<TurnResult>, pumped: seq<nat>)
    requires s.env.Sane()
  {
    && |asked| == |answered| == |pumped|
    && (asked != [] ==>
          var n := |asked| - 1;
          && Timely(s, asked[..n], answered[..n], pumped[..n])
          && (InFlight(answered[..n])
              && RepliedBy(s, PromptsSent(asked[..n], answered[..n]), s.env.arrivals(pumped[n])) ==>
                answered[n].Completed?))
  }

  lemma TimelyAppend(s: Session, asked: seq<TickContext>, answered: seq<TurnResult>, pumped: seq<nat>,
                     ctx: TickContext, r: TurnResult, pump: nat)
    requires s.env.Sane() && |asked| == |answered| == |pumped|
    ensures Timely(s, asked + [ctx], answered + [r], pumped + [pump]) <==>
      && Timely(s, asked, answered, pumped)
      && (InFlight(answered) && RepliedBy(s, PromptsSent(asked, answered), s.env.arrivals(pump)) ==> r.Completed?)
  {
    hide RepliedBy, PromptsSent;
    Last(asked, ctx);
    Last(answered, r);
    Last(pumped, pump);
  }

  lemma HistoryAppend(s: Session, asked: seq<TickContext>, answered: seq<TurnResult>, ctx: TickContext, r: TurnResult)
    requires s.env.Sane() && Faithful(s, asked, answered)
    requires r.Pending? || (InFlight(answered) && r.Completed? && Answered(s, PromptsSent(asked, answered), r.verdict))
    ensures Faithful(s, asked + [ctx], answered + [r])
    ensures PromptsSent(asked + [ctx], answered + [r]) ==
      if InFlight(answered) then PromptsSent(asked, answered)
      else PromptsSent(asked, answered) + [StepDirective(ctx)]
    ensures InFlight(answered + [r]) == r.Pending?
  {
    hide Answered, StepDirective;
    assert (asked + [ctx])[..|asked|] == asked && (answered + [r])[..|answered|] == answered;
  }

  // ── the client's bookkeeping ───────────────────────────────────────────

  /** The replies among the messages read so far. */
  function RepliesRead(s: Session, texts: seq<Bytes>): seq<string>
    requires s.base <= |texts|
  {
    Replies(Msgs(s.env, texts[s.base..]))
  }

  /** After reading `texts` and sending `prompts`, over this poll history:
      `reply` is the concatenation of exactly the deltas of the turn in flight;
      one prompt is out per completed turn, and one more while a turn is in
      flight; every poll so far was answered by the gateway. */
  ghost predicate InStep(s: Session, texts: seq<Bytes>, prompts: seq<string>,
                         asked: seq<TickContext>, answered: seq<TurnResult>, reply: string, inFlight: bool)
    requires s.env.Sane()
  {
    && s.base <= |texts|
    && Faithful(s, asked, answered)
    && prompts == PromptsSent(asked, answered)
    && inFlight == InFlight(answered)
    && OpenReply(Msgs(s.env, texts[s.base..])) == (if inFlight then reply else "")
    && |prompts| == |RepliesRead(s, texts)| + (if inFlight then 1 else 0)
  }

  lemma InStepPrompt(s: Session, texts: seq<Bytes>, prompts: seq<string>,
                     asked: seq<TickContext>, answered: seq<TurnResult>, reply: string, ctx: TickContext)
    requires s.env.Sane() && InStep(s, texts, prompts, asked, answered, reply, false)
    ensures InStep(s, texts, prompts + [StepDirective(ctx)], asked + [ctx], answered + [Pending], "", true)
  {
    hide StepDirective, Faithful, PromptsSent, Replies, OpenReply, Msgs;
    HistoryAppend(s, asked, answered, ctx, Pending);
  }

  lemma InStepPending(s: Session, texts: seq<Bytes>, prompts: seq<string>,
                      asked: seq<TickContext>, answered: seq<TurnResult>, reply: string, ctx: TickContext)
    requires s.env.Sane() && InStep(s, texts, prompts, asked, answered, reply, true)
    ensures InStep(s, texts, prompts, asked + [ctx], answered + [Pending], reply, true)
  {
    hide StepDirective, Faithful, PromptsSent, Replies, OpenReply, Msgs;
    HistoryAppend(s, asked, answered, ctx, Pending);
  }

  lemma MsgsTail(env: Environment, before: seq<Bytes>, after: seq<Bytes>, base: nat, text: string)
    requires base <= |before| && |after| == |before| + 1 && before <= after
    requires env.utf8(after[|before|]) == Some(text)
    ensures Msgs(env, after[base..]) == Msgs(env, before[base..]) + [env.classify(text)]
  {
    assert after[base..] == before[base..] + [after[|before|]];
    MsgsAppend(env, before[base..], after[|before|]);
  }

  /** A message that does not end the turn. */
  lemma InStepMessage(s: Session, before: seq<Bytes>, after: seq<Bytes>, text: string, prompts: seq<string>,
                      asked: seq<TickContext>, answered: seq<TurnResult>, reply: string)
    requires s.env.Sane() && InStep(s, before, prompts, asked, answered, reply, true)
    requires |after| == |before| + 1 && before <= after && s.env.utf8(after[|before|]) == Some(text)
    requires !s.env.classify(text).TurnComplete?
    ensures InStep(s, after, prompts, asked, answered,
                   match s.env.classify(text) { case AgentText(delta) => reply + delta case _ => reply }, true)
  {
    hide StepDirective, Faithful, PromptsSent, Replies, OpenReply, Msgs;
    MsgsTail(s.env, before, after, s.base, text);
    TurnAppend(Msgs(s.env, before[s.base..]), s.env.classify(text));
  }

  /** The message that ends the turn: the reply is the gateway's answer. */
  lemma InStepComplete(s: Session, before: seq<Bytes>, after: seq<Bytes>, text: string, prompts: seq<string>,
                       asked: seq<TickContext>, answered: seq<TurnResult>, reply: string, ctx: TickContext)
    requires s.env.Sane() && InStep(s, before, prompts, asked, answered, reply, true)
    requires |after| == |before| + 1 && before <= after && s.env.utf8(after[|before|]) == Some(text)
    requires s.env.classify(text).TurnComplete?
    requires after <= AllTexts(s, prompts)
    ensures InStep(s, after, prompts, asked + [ctx], answered + [Completed(VerdictOf(reply))], reply, false)
    ensures s.base <= |after| && |RepliesRead(s, after)| == |prompts|
  {
    hide StepDirective, Faithful, PromptsSent, Replies, OpenReply, Msgs, VerdictOf, AllTexts;
    MsgsTail(s.env, before, after, s.base, text);
    TurnAppend(Msgs(s.env, before[s.base..]), TurnComplete);
    RepliesReadGrow(s, after, AllTexts(s, prompts));
    assert RepliesRead(s, after)[|prompts| - 1] == reply;
    HistoryAppend(s, asked, answered, ctx, Completed(VerdictOf(reply)));
  }

  lemma RepliesReadGrow(s: Session, texts: seq<Bytes>, all: seq<Bytes>)
    requires s.base <= |texts| && texts <= all
    ensures RepliesRead(s, texts) <= RepliesRead(s, all)
  {
    RepliesGrow(s.env, texts[s.base..], all[s.base..]);
  }
}
