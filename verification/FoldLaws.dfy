/** What each map of the folded state says about the history. */
module FoldLaws {
  import opened Wrappers
  import opened Colony

  // ── tools and plugins ──────────────────────────────────────────────────

  predicate Advertises(op: Op, t: string) {
    op.Apply? && op.event.PluginUp? && exists spec :: spec in op.event.tools && spec.name == t
  }

  predicate Up(op: Op, p: PluginId) {
    op.Apply? && op.event.PluginUp? && op.event.plugin == p
  }

  predicate Down(op: Op, p: PluginId) {
    op.Apply? && op.event.PluginDown? && op.event.plugin == p
  }

  /** `ops[i]` is the last advertisement of `t`, it is by `p`, and `p` has not
      gone down since. */
  ghost predicate OwnedSince(ops: seq<Op>, t: string, p: PluginId, i: nat) {
    && i < |ops|
    && Up(ops[i], p) && Advertises(ops[i], t)
    && forall j :: i < j < |ops| ==> !Advertises(ops[j], t) && !Down(ops[j], p)
  }

  /** `ops[i]` is the last time `p` came up, with `specs`, and it is up since. */
  ghost predicate UpSince(ops: seq<Op>, p: PluginId, specs: seq<ToolSpec>, i: nat) {
    && i < |ops|
    && ops[i] == Apply(PluginUp(p, specs))
    && forall j :: i < j < |ops| ==> !Up(ops[j], p) && !Down(ops[j], p)
  }

  ghost predicate Owns(st: State, p: PluginId, t: string) {
    t in st.tools && st.tools[t] == p
  }

  lemma OwnsStep(st: State, op: Op, p: PluginId, t: string)
    ensures Owns(Step(st, op), p, t) <==>
      if Advertises(op, t) then Up(op, p) else Owns(st, p, t) && !Down(op, p)
  {
  }

  /** A tool belongs to `p` exactly when its last advertisement came from `p`
      and `p` has not gone down since. */
  lemma {:induction false} ToolOwner(ops: seq<Op>, t: string, p: PluginId)
    ensures Owns(Fold(ops), p, t) <==> exists i :: OwnedSince(ops, t, p, i)
  {
    if ops == [] {
    } else {
      var n := |ops| - 1;
      var before, op := ops[..n], ops[n];
      ToolOwner(before, t, p);
      OwnsStep(Fold(before), op, p, t);
      if Advertises(op, t) {
        assert Up(op, p) ==> OwnedSince(ops, t, p, n);
      } else {
        forall i: nat ensures OwnedSince(ops, t, p, i) <==> OwnedSince(before, t, p, i) && !Down(op, p) {
        }
      }
    }
  }

  /** `plugins[p]` is the list of the last PluginUp(p), if no PluginDown(p)
      followed. */
  lemma {:induction false} PluginList(ops: seq<Op>, p: PluginId, specs: seq<ToolSpec>)
    ensures (p in Fold(ops).plugins && Fold(ops).plugins[p] == specs) <==> exists i :: UpSince(ops, p, specs, i)
  {
    if ops == [] {
    } else {
      var before, op := ops[..|ops| - 1], ops[|ops| - 1];
      hide Fold, Step, UpSince, Up, Down;
      PluginList(before, p, specs);
      FoldLast(ops);
      ListStep(Fold(before), op, p, specs);
      UpSinceLast(ops, p, specs);
      if Up(op, p) {
      } else {
        forall i: nat ensures UpSince(ops, p, specs, i) <==> UpSince(before, p, specs, i) && !Down(op, p) {
          UpSinceBefore(ops, p, specs, i);
        }
      }
    }
  }

  lemma FoldLast(ops: seq<Op>)
    requires ops != []
    ensures Fold(ops) == Step(Fold(ops[..|ops| - 1]), ops[|ops| - 1])
  {
  }

  lemma ListStep(st: State, op: Op, p: PluginId, specs: seq<ToolSpec>)
    ensures var before, after := st.plugins, Step(st, op).plugins;
      (p in after && after[p] == specs) <==>
        if Up(op, p) then op.event.tools == specs else p in before && before[p] == specs && !Down(op, p)
  {
  }

  lemma UpSinceLast(ops: seq<Op>, p: PluginId, specs: seq<ToolSpec>)
    requires ops != []
    ensures var op := ops[|ops| - 1];
      Up(op, p) ==> (op.event.tools == specs <==> exists i :: UpSince(ops, p, specs, i))
  {
    var n := |ops| - 1;
    if Up(ops[n], p) && ops[n].event.tools == specs {
      assert UpSince(ops, p, specs, n);
    }
  }

  lemma UpSinceBefore(ops: seq<Op>, p: PluginId, specs: seq<ToolSpec>, i: nat)
    requires ops != [] && !Up(ops[|ops| - 1], p)
    ensures UpSince(ops, p, specs, i) <==> UpSince(ops[..|ops| - 1], p, specs, i) && !Down(ops[|ops| - 1], p)
  {
  }

  /** Every tool owner is a live plugin. */
  lemma {:induction false} OwnersAreLive(ops: seq<Op>)
    ensures forall t :: t in Fold(ops).tools ==> Fold(ops).tools[t] in Fold(ops).plugins
  {
    if ops == [] {
    } else {
      OwnersAreLive(ops[..|ops| - 1]);
    }
  }

  /** The owned tool `t` is on its owner's current list. */
  predicate Listed(st: State, t: string)
    requires t in st.tools
  {
    st.tools[t] in st.plugins && exists spec :: spec in st.plugins[st.tools[t]] && spec.name == t
  }

  /** Every owned tool is. */
  ghost predicate Consistent(st: State) {
    forall t :: t in st.tools ==> Listed(st, t)
  }

  lemma UpKeepsConsistent(st: State, p: PluginId, specs: seq<ToolSpec>)
    requires Consistent(st)
    ensures Consistent(Step(st, Apply(PluginUp(p, specs)))) <==>
      forall t :: Owns(st, p, t) ==> t in Names(specs)
  {
    var st' := Step(st, Apply(PluginUp(p, specs)));
    assert st'.tools == Advertised(st.tools, p, specs) && st'.plugins == st.plugins[p := specs];
    if forall t :: Owns(st, p, t) ==> t in Names(specs) {
      forall t | t in st'.tools ensures Listed(st', t) {
        assert t in Names(specs) || (t in st.tools && st'.tools[t] == st.tools[t]);
      }
    } else {
      var t :| Owns(st, p, t) && t !in Names(specs);
      assert t in st'.tools && st'.tools[t] == p;
    }
  }

  /** One operation keeps the registry consistent exactly when it does not
      re-announce a plugin with a list that drops a tool the plugin still owns. */
  lemma ConsistencyStep(st: State, op: Op)
    requires Consistent(st)
    ensures Consistent(Step(st, op)) <==>
      (op.Apply? && op.event.PluginUp? ==>
        forall t :: Owns(st, op.event.plugin, t) ==> t in Names(op.event.tools))
  {
    if op.Apply? && op.event.PluginUp? {
      UpKeepsConsistent(st, op.event.plugin, op.event.tools);
    } else {
      var st' := Step(st, op);
      forall t | t in st'.tools ensures Listed(st', t) {
        assert t in st.tools && st'.tools[t] == st.tools[t];
      }
    }
  }

  /** The advertisement behind an owned tool is by the last coming-up of its
      owner. */
  ghost predicate Current(ops: seq<Op>, p: PluginId, i: nat) {
    forall j :: i < j < |ops| ==> !Up(ops[j], p)
  }

  /** Over every history: each owned tool is on its owner's list if and only if
      no plugin has come up again since it last advertised a tool it owns. */
  lemma ConsistentExactlyWhen(ops: seq<Op>)
    ensures Consistent(Fold(ops)) <==> forall t, p, i :: OwnedSince(ops, t, p, i) ==> Current(ops, p, i)
  {
    if Consistent(Fold(ops)) {
      forall t, p, i | OwnedSince(ops, t, p, i) ensures Current(ops, p, i) {
        OwnedToolIsListed(ops, t, p, i);
      }
    }
    if forall t, p, i :: OwnedSince(ops, t, p, i) ==> Current(ops, p, i) {
      forall t | t in Fold(ops).tools ensures Listed(Fold(ops), t) {
        var p := Fold(ops).tools[t];
        ToolOwner(ops, t, p);
        var i: nat :| OwnedSince(ops, t, p, i);
        CurrentToolIsListed(ops, t, p, i);
      }
    }
  }

  lemma OwnedToolIsListed(ops: seq<Op>, t: string, p: PluginId, i: nat)
    requires Consistent(Fold(ops)) && OwnedSince(ops, t, p, i)
    ensures Current(ops, p, i)
  {
    ToolOwner(ops, t, p);
    var specs := Fold(ops).plugins[p];
    PluginList(ops, p, specs);
    var k: nat :| UpSince(ops, p, specs, k);
    assert Advertises(ops[k], t);
    assert k <= i;
  }

  lemma CurrentToolIsListed(ops: seq<Op>, t: string, p: PluginId, i: nat)
    requires OwnedSince(ops, t, p, i) && Current(ops, p, i)
    ensures t in Fold(ops).tools && Fold(ops).tools[t] == p && Listed(Fold(ops), t)
  {
    ToolOwner(ops, t, p);
    var specs := ops[i].event.tools;
    assert UpSince(ops, p, specs, i);
    PluginList(ops, p, specs);
  }

  /** Consequence for whole histories: as long as a plugin only comes up while
      it is down, the registry is consistent. */
  lemma {:induction false} FreshUpsStayConsistent(ops: seq<Op>)
    requires forall i :: 0 <= i < |ops| && ops[i].Apply? && ops[i].event.PluginUp? ==>
      ops[i].event.plugin !in Fold(ops[..i]).plugins
    ensures Consistent(Fold(ops))
  {
    if ops == [] {
    } else {
      var n := |ops| - 1;
      var before := ops[..n];
      assert forall i :: 0 <= i < n ==> before[..i] == ops[..i];
      FreshUpsStayConsistent(before);
      OwnersAreLive(before);
      ConsistencyStep(Fold(before), ops[n]);
    }
  }

  /** Without that proviso it fails: a plugin that comes up twice keeps owning
      a tool its second list no longer names. */
  lemma ReannouncedPluginIsInconsistent()
    ensures var a, b := ToolSpec("a", ""), ToolSpec("b", "");
      !Consistent(Fold([Apply(PluginUp("p", [a])), Apply(PluginUp("p", [b]))]))
  {
    var a, b := ToolSpec("a", ""), ToolSpec("b", "");
    var up, reup := Apply(PluginUp("p", [a])), Apply(PluginUp("p", [b]));
    FoldAppend([], up);
    FoldAppend([up], reup);
    assert [] + [up] == [up] && [up] + [reup] == [up, reup];
    assert a in [a];
    assert "a" in Names([a]);
    assert Owns(Fold([up]), "p", "a");
    assert "a" !in Names([b]);
    assert Owns(Fold([up, reup]), "p", "a");
  }

  lemma FoldAppend(ops: seq<Op>, op: Op)
    ensures Fold(ops + [op]) == Step(Fold(ops), op)
  {
    assert (ops + [op])[..|ops|] == ops;
  }

  // ── approvals ──────────────────────────────────────────────────────────

  predicate TouchesApproval(op: Op, a: ActionId) {
    && op.Apply?
    && ((op.event.ApprovalPending? && op.event.call == a) || (op.event.UserApproval? && op.event.action == a))
  }

  ghost predicate PendingSince(ops: seq<Op>, a: ActionId, s: SessionId, i: nat) {
    && i < |ops|
    && ops[i] == Apply(ApprovalPending(s, a))
    && forall j :: i < j < |ops| ==> !TouchesApproval(ops[j], a)
  }

  /** An action is pending, for session `s`, exactly when the last event that
      touched it asked for approval on behalf of `s`. */
  lemma {:induction false} PendingApproval(ops: seq<Op>, a: ActionId, s: SessionId)
    ensures (a in Fold(ops).approvals && Fold(ops).approvals[a] == s) <==> exists i :: PendingSince(ops, a, s, i)
  {
    if ops == [] {
    } else {
      var before, op := ops[..|ops| - 1], ops[|ops| - 1];
      PendingApproval(before, a, s);
      if a in Fold(ops).approvals && Fold(ops).approvals[a] == s {
        if TouchesApproval(op, a) {
          assert PendingSince(ops, a, s, |ops| - 1);
        } else {
          var i :| PendingSince(before, a, s, i);
          assert PendingSince(ops, a, s, i);
        }
      }
      if i: nat :| PendingSince(ops, a, s, i) {
        if i < |before| {
          assert PendingSince(before, a, s, i);
        }
      }
    }
  }

  // ── sessions ───────────────────────────────────────────────────────────

  predicate Prompts(op: Op, s: SessionId) {
    op.Apply? && op.event.UserPrompt? && op.event.session == s
  }

  predicate Registers(op: Op, s: SessionId) {
    op.RegisterChild? && op.child == s
  }

  /** The birth clock: one more than the position of the operation that last
      created session `s`, and 0 while there is none. */
  function Birth(ops: seq<Op>, s: SessionId): (b: nat)
    ensures b <= |ops|
  {
    if ops == [] then 0
    else
      var n := |ops| - 1;
      var b := Birth(ops[..n], s);
      if Registers(ops[n], s) || (b == 0 && Prompts(ops[n], s)) then n + 1 else b
  }

  /** The birth is the last registration, or without one the first prompt. */
  lemma {:induction false} BirthIs(ops: seq<Op>, s: SessionId)
    ensures var b := Birth(ops, s);
      && (b == 0 ==> forall j :: 0 <= j < |ops| ==> !Registers(ops[j], s) && !Prompts(ops[j], s))
      && (b > 0 ==>
            && (forall j :: b <= j < |ops| ==> !Registers(ops[j], s))
            && (!Registers(ops[b - 1], s) ==>
                  && Prompts(ops[b - 1], s)
                  && forall j :: 0 <= j < b - 1 ==> !Registers(ops[j], s) && !Prompts(ops[j], s)))
  {
    if ops == [] {
    } else {
      BirthIs(ops[..|ops| - 1], s);
    }
  }

  function MessageOf(op: Op): Message
    requires op.Apply? && op.event.UserPrompt?
  {
    User(Content(op.event.text, op.event.images))
  }

  /** The prompts of session `s`, as messages, in order. */
  function PromptsOf(ops: seq<Op>, s: SessionId): seq<Message> {
    if ops == [] then []
    else
      var n := |ops| - 1;
      if Prompts(ops[n], s) then PromptsOf(ops[..n], s) + [MessageOf(ops[n])] else PromptsOf(ops[..n], s)
  }

  /** The children registered under `s`, in order. */
  function ChildrenOf(ops: seq<Op>, s: SessionId): seq<SessionId> {
    if ops == [] then []
    else
      var n := |ops| - 1;
      if ops[n].RegisterChild? && ops[n].parent == s then ChildrenOf(ops[..n], s) + [ops[n].child]
      else ChildrenOf(ops[..n], s)
  }

  /** What one operation does to session `s`. */
  function SessionStep(ctx: Option<AgentContext>, op: Op, s: SessionId): Option<AgentContext> {
    var created := if Registers(op, s) then Some(ChildContext(s, op.parent))
                   else if ctx.None? && Prompts(op, s) then Some(RootContext(s))
                   else ctx;
    match created
    case None => None
    case Some(c) =>
      if Prompts(op, s) then Some(c.(history := c.history + [MessageOf(op)]))
      else if op.RegisterChild? && op.parent == s then Some(c.(spawned := c.spawned + [op.child]))
      else Some(c)
  }

  function Lookup(sessions: Sessions, s: SessionId): Option<AgentContext> {
    if s in sessions then Some(sessions[s]) else None
  }

  lemma StepOnSession(st: State, op: Op, s: SessionId)
    ensures Lookup(Step(st, op).sessions, s) == SessionStep(Lookup(st.sessions, s), op, s)
  {
  }

  /** A session is what happened since its birth: its history is its prompts
      since then, its spawn list the children registered under it since then,
      and its parent is decided by the birth operation alone. */
  lemma {:induction false} SessionSinceBirth(ops: seq<Op>, s: SessionId)
    ensures Lookup(Fold(ops).sessions, s) == SinceBirth(ops, s)
  {
    if ops == [] {
    } else {
      var n := |ops| - 1;
      SessionSinceBirth(ops[..n], s);
      StepOnSession(Fold(ops[..n]), ops[n], s);
      SinceBirthStep(ops, s);
    }
  }

  /** The message is the user's text, first and only if there is one, and then
      every image with its media type and its data, in order. */
  predicate Reads(m: Message, text: string, images: seq<ImageSource>) {
    var first := if text == "" then 0 else 1;
    && |m.content| == first + |images|
    && (text != "" ==> m.content[0] == TextBlock(text))
    && forall i :: 0 <= i < |images| ==>
         m.content[first + i] == ImageBlock(images[i].mediaType, images[i].data)
  }

  /** The prompts of session `s`, in order. */
  function PromptsTo(ops: seq<Op>, s: SessionId): (es: seq<Event>)
    ensures forall k :: 0 <= k < |es| ==> es[k].UserPrompt? && es[k].session == s
  {
    if ops == [] then []
    else
      var n := |ops| - 1;
      if Prompts(ops[n], s) then PromptsTo(ops[..n], s) + [ops[n].event] else PromptsTo(ops[..n], s)
  }

  lemma MessageReads(op: Op)
    requires op.Apply? && op.event.UserPrompt?
    ensures Reads(MessageOf(op), op.event.text, op.event.images)
  {
  }

  lemma {:induction false} MessagesRead(ops: seq<Op>, s: SessionId)
    ensures var es, ms := PromptsTo(ops, s), PromptsOf(ops, s);
      |ms| == |es| && forall k :: 0 <= k < |es| ==> Reads(ms[k], es[k].text, es[k].images)
  {
    hide Reads, MessageOf;
    if ops == [] {
    } else {
      var n := |ops| - 1;
      MessagesRead(ops[..n], s);
      if Prompts(ops[n], s) {
        MessageReads(ops[n]);
      }
    }
  }

  /** Over every history: message number k of a session reads its prompt number
      k since its birth. */
  lemma HistoryReads(ops: seq<Op>, s: SessionId)
    requires s in Fold(ops).sessions
    ensures Birth(ops, s) > 0
    ensures var es, ms := PromptsTo(ops[Birth(ops, s) - 1..], s), Fold(ops).sessions[s].history;
      |ms| == |es| && forall k :: 0 <= k < |es| ==> Reads(ms[k], es[k].text, es[k].images)
  {
    hide Reads, Fold;
    SessionSinceBirth(ops, s);
    MessagesRead(ops[Birth(ops, s) - 1..], s);
  }

  /** The context of `s`, read off the history directly. */
  function SinceBirth(ops: seq<Op>, s: SessionId): Option<AgentContext> {
    var b := Birth(ops, s);
    if b == 0 then None
    else
      var life := ops[b - 1..];
      Some(AgentContext(s,
                        if Registers(life[0], s) then Some(life[0].parent) else None,
                        PromptsOf(life, s),
                        ChildrenOf(life, s)))
  }

  lemma SinceBirthStep(ops: seq<Op>, s: SessionId)
    requires ops != []
    ensures SinceBirth(ops, s) == SessionStep(SinceBirth(ops[..|ops| - 1], s), ops[|ops| - 1], s)
  {
    var n := |ops| - 1;
    var b := Birth(ops, s);
    if b == n + 1 {
      var life := ops[b - 1..];
      assert life == [ops[n]];
      assert life[..0] == [];
      assert PromptsOf(life[..0], s) == [] && ChildrenOf(life[..0], s) == [];
    } else if b > 0 {
      assert ops[b - 1..][..n - b + 1] == ops[..n][b - 1..];
    }
  }

  // ── each map has its own part of the history ───────────────────────────

  predicate OnSessions(op: Op) {
    op.RegisterChild? || op.event.UserPrompt?
  }

  predicate OnPlugins(op: Op) {
    op.Apply? && (op.event.PluginUp? || op.event.PluginDown?)
  }

  predicate OnApprovals(op: Op) {
    op.Apply? && (op.event.ApprovalPending? || op.event.UserApproval?)
  }

  function Only(keep: Op -> bool, ops: seq<Op>): seq<Op> {
    if ops == [] then []
    else
      var n := |ops| - 1;
      if keep(ops[n]) then Only(keep, ops[..n]) + [ops[n]] else Only(keep, ops[..n])
  }

  lemma NothingKept(keep: Op -> bool)
    ensures Only(keep, []) == []
  {
  }

  lemma LastKept(keep: Op -> bool, ops: seq<Op>)
    requires ops != []
    ensures var before, last := ops[..|ops| - 1], ops[|ops| - 1];
      && Fold(ops) == Step(Fold(before), last)
      && Fold(Only(keep, ops)) ==
           if keep(last) then Step(Fold(Only(keep, before)), last) else Fold(Only(keep, before))
  {
    FoldAppend(Only(keep, ops[..|ops| - 1]), ops[|ops| - 1]);
  }

  lemma SessionSliceStep(st: State, other: State, op: Op)
    requires st.sessions == other.sessions
    ensures Step(st, op).sessions == (if OnSessions(op) then Step(other, op) else other).sessions
  {
  }

  lemma {:induction false} SessionSlice(ops: seq<Op>)
    ensures Fold(ops).sessions == Fold(Only(OnSessions, ops)).sessions
  {
    hide Fold, Step, Only;
    if ops == [] {
      NothingKept(OnSessions);
    } else {
      var n := |ops| - 1;
      SessionSlice(ops[..n]);
      LastKept(OnSessions, ops);
      SessionSliceStep(Fold(ops[..n]), Fold(Only(OnSessions, ops[..n])), ops[n]);
    }
  }

  lemma PluginSliceStep(st: State, other: State, op: Op)
    requires st.tools == other.tools && st.plugins == other.plugins
    ensures Step(st, op).tools == (if OnPlugins(op) then Step(other, op) else other).tools
    ensures Step(st, op).plugins == (if OnPlugins(op) then Step(other, op) else other).plugins
  {
  }

  lemma {:induction false} PluginSlice(ops: seq<Op>)
    ensures Fold(ops).tools == Fold(Only(OnPlugins, ops)).tools
    ensures Fold(ops).plugins == Fold(Only(OnPlugins, ops)).plugins
  {
    hide Fold, Step, Only;
    if ops == [] {
      NothingKept(OnPlugins);
    } else {
      var n := |ops| - 1;
      PluginSlice(ops[..n]);
      LastKept(OnPlugins, ops);
      PluginSliceStep(Fold(ops[..n]), Fold(Only(OnPlugins, ops[..n])), ops[n]);
    }
  }

  lemma ApprovalSliceStep(st: State, other: State, op: Op)
    requires st.approvals == other.approvals
    ensures Step(st, op).approvals == (if OnApprovals(op) then Step(other, op) else other).approvals
  {
  }

  lemma {:induction false} ApprovalSlice(ops: seq<Op>)
    ensures Fold(ops).approvals == Fold(Only(OnApprovals, ops)).approvals
  {
    hide Fold, Step, Only;
    if ops == [] {
      NothingKept(OnApprovals);
    } else {
      var n := |ops| - 1;
      ApprovalSlice(ops[..n]);
      LastKept(OnApprovals, ops);
      ApprovalSliceStep(Fold(ops[..n]), Fold(Only(OnApprovals, ops[..n])), ops[n]);
    }
  }

  /** Each map depends only on its own part of the history: two histories that
      agree on the operations of one kind agree on that map. */
  lemma Slices(ops: seq<Op>, other: seq<Op>)
    ensures Only(OnSessions, ops) == Only(OnSessions, other) ==> Fold(ops).sessions == Fold(other).sessions
    ensures Only(OnPlugins, ops) == Only(OnPlugins, other) ==>
      Fold(ops).tools == Fold(other).tools && Fold(ops).plugins == Fold(other).plugins
    ensures Only(OnApprovals, ops) == Only(OnApprovals, other) ==> Fold(ops).approvals == Fold(other).approvals
  {
    SessionSlice(ops);
    SessionSlice(other);
    PluginSlice(ops);
    PluginSlice(other);
    ApprovalSlice(ops);
    ApprovalSlice(other);
  }
}
