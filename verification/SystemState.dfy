/** `SystemState`: the four maps, updated in place. */
module SystemState {
  import opened Colony
  import opened FoldLaws
  import opened Forest
  import opened SpawnGraph

  class SystemState {
    var sessions: Sessions
    var tools: map<string, PluginId>
    var plugins: map<PluginId, seq<ToolSpec>>
    var pendingApprovals: map<ActionId, SessionId>

    /** Everything that has been applied so far. */
    ghost var ops: seq<Op>

    function Value(): State
      reads this
    {
      State(sessions, tools, plugins, pendingApprovals)
    }

    ghost predicate Valid()
      reads this
    {
      Value() == Fold(ops)
    }

    constructor ()
      ensures Valid() && ops == []
    {
      sessions, tools, plugins, pendingApprovals := map[], map[], map[], map[];
      ops := [];
    }

    /** `apply`. */
    method Apply(event: Event)
      requires Valid()
      modifies this
      ensures Valid() && ops == old(ops) + [Op.Apply(event)]
      ensures event.UserPrompt? ==> event.session in sessions && Told(event)
    {
      hide Content, Reads, Advertised, Fold;
      match event {
        case UserPrompt(session, text, images) =>
          var content := Collect(text, images);
          var ctx := if session in sessions then sessions[session] else RootContext(session);
          sessions := sessions[session := ctx.(history := ctx.history + [User(content)])];
        case ApprovalPending(session, call) =>
          pendingApprovals := pendingApprovals[call := session];
        case UserApproval(action) =>
          pendingApprovals := pendingApprovals - {action};
        case PluginUp(plugin, specs) =>
          RegisterTools(plugin, specs);
          plugins := plugins[plugin := specs];
        case PluginDown(plugin) =>
          tools := map t | t in tools && tools[t] != plugin :: tools[t];
          plugins := plugins - {plugin};
        case OtherEvent =>
      }
      ops := ops + [Op.Apply(event)];
      FoldAppend(old(ops), Op.Apply(event));
    }

    /** The content of the `UserPrompt` arm: the text, unless it is empty, and
        then one block per image. */
    method Collect(text: string, images: seq<ImageSource>) returns (content: seq<ContentBlock>)
      ensures content == Content(text, images) && Reads(User(content), text, images)
    {
      content := [];
      if text != "" {
        content := content + [TextBlock(text)];
      }
      var i := 0;
      while i < |images|
        invariant 0 <= i <= |images|
        invariant content == Content(text, images[..i])
      {
        content := content + [ImageBlock(images[i].mediaType, images[i].data)];
        i := i + 1;
      }
      assert images[..i] == images;
      MessageReads(Op.Apply(UserPrompt(0, text, images)));
    }

    /** The session's last message is this prompt. */
    predicate Told(event: Event)
      requires event.UserPrompt? && event.session in sessions
      reads this
    {
      var history := sessions[event.session].history;
      history != [] && Reads(history[|history| - 1], event.text, event.images)
    }

    /** The loop of the `PluginUp` arm: one insertion per spec. */
    method RegisterTools(plugin: PluginId, specs: seq<ToolSpec>)
      modifies `tools
      ensures tools == Advertised(old(tools), plugin, specs)
    {
      NothingAdvertised(tools, plugin, specs);
      hide Advertised;
      var i := 0;
      while i < |specs|
        invariant 0 <= i <= |specs|
        invariant tools == Advertised(old(tools), plugin, specs[..i])
      {
        AdvertiseOneMore(old(tools), plugin, specs, i);
        tools := tools[specs[i].name := plugin];
        i := i + 1;
      }
      assert specs[..i] == specs;
    }

    lemma NothingAdvertised(before: map<string, PluginId>, plugin: PluginId, specs: seq<ToolSpec>)
      ensures Advertised(before, plugin, specs[..0]) == before
    {
      assert specs[..0] == [];
    }

    lemma AdvertiseOneMore(before: map<string, PluginId>, plugin: PluginId, specs: seq<ToolSpec>, i: nat)
      requires i < |specs|
      ensures Advertised(before, plugin, specs[..i + 1])
           == Advertised(before, plugin, specs[..i])[specs[i].name := plugin]
    {
      assert specs[..i + 1] == specs[..i] + [specs[i]];
      assert Names(specs[..i + 1]) == Names(specs[..i]) + {specs[i].name};
    }

    /** `register_child`. */
    method RegisterChild(child: SessionId, parent: SessionId)
      requires Valid()
      modifies this
      ensures Valid() && ops == old(ops) + [Op.RegisterChild(child, parent)]
    {
      sessions := sessions[child := ChildContext(child, parent)];
      if parent in sessions {
        var p := sessions[parent];
        sessions := sessions[parent := p.(spawned := p.spawned + [child])];
      }
      ops := ops + [Op.RegisterChild(child, parent)];
      FoldAppend(old(ops), Op.RegisterChild(child, parent));
    }

    /** `subtree`: the work list grows while it is scanned. It is called only
        where the scan ends; ScanEndsExactlyWhen says when that is. */
    method Subtree(root: SessionId) returns (out: seq<SessionId>)
      requires Valid()
      requires NoSelfSpawnerBelow(sessions, root)
      ensures out == SubtreeOrder(ops, root)
    {
      ReachGraphClimbs(ops, root);
      out := Scan(sessions, root, ReachGraph(sessions, root), Rank(ops), |ops|);
    }
  }

  /** The loop of `subtree`, over any part `g` of the spawn graph that contains
      the root and is closed under children. */
  method Scan(sessions: Sessions, root: SessionId, ghost g: Graph, ghost rank: SessionId -> nat, ghost top: nat)
    returns (out: seq<SessionId>)
    requires Climbs(g, rank, top) && root in g
    requires forall x :: x in g ==> g[x] == Kids(sessions, x)
    ensures out == LevelOrder(g, rank, top, [root], 0)
  {
    out := [root];
    var i := 0;
    while i < |out|
      invariant 0 <= i <= |out| && Within(g, out)
      invariant out == [root] + AllKids(g, out[..i])
      decreases WeighAll(g, rank, top, ONE, out[i..], 0)
    {
      ScanStep(g, rank, top, [root], out, i);
      assert g[out[i]] == Kids(sessions, out[i]);
      if out[i] in sessions {
        out := out + sessions[out[i]].spawned;
      } else {
        assert out + [] == out;
      }
      i := i + 1;
    }
    assert out[..i] == out;
    ClosedListIsLevelOrder(g, rank, top, [root], 0, out);
  }
}
