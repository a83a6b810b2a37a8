/** The colony's state as a value, and the fold of a history into it. */
module Colony {
  import opened Wrappers
  import opened Protocol

  type SessionId = u64
  type ActionId = u64
  type PluginId = string

  datatype ToolSpec = ToolSpec(name: string, description: string)
  datatype ImageSource = ImageSource(mediaType: string, data: string)
  datatype ContentBlock =
    | TextBlock(text: string)
    | ImageBlock(mediaType: string, data: string)
  datatype Message = User(content: seq<ContentBlock>)

  datatype AgentContext = AgentContext(
    id: SessionId,
    parent: Option<SessionId>,
    history: seq<Message>,
    spawned: seq<SessionId>)

  function RootContext(id: SessionId): AgentContext {
    AgentContext(id, None, [], [])
  }

  function ChildContext(id: SessionId, parent: SessionId): AgentContext {
    AgentContext(id, Some(parent), [], [])
  }

  /** The events that touch the state; `OtherEvent` stands for every arm of
      the fold that does nothing. */
  datatype Event =
    | UserPrompt(session: SessionId, text: string, images: seq<ImageSource>)
    | UserApproval(action: ActionId)
    | ApprovalPending(session: SessionId, call: ActionId)
    | PluginUp(plugin: PluginId, tools: seq<ToolSpec>)
    | PluginDown(plugin: PluginId)
    | OtherEvent

  /** One mutation of the state: an event, or a child registration. */
  datatype Op =
    | Apply(event: Event)
    | RegisterChild(child: SessionId, parent: SessionId)

  type Sessions = map<SessionId, AgentContext>

  datatype State = State(
    sessions: Sessions,
    tools: map<string, PluginId>,
    plugins: map<PluginId, seq<ToolSpec>>,
    approvals: map<ActionId, SessionId>)

  const EMPTY: State := State(map[], map[], map[], map[])

  /** Text first, skipped when empty, then the images in order. */
  function Content(text: string, images: seq<ImageSource>): seq<ContentBlock> {
    (if text == "" then [] else [TextBlock(text)])
    + seq(|images|, i requires 0 <= i < |images| => ImageBlock(images[i].mediaType, images[i].data))
  }

  function Names(specs: seq<ToolSpec>): set<string> {
    set spec | spec in specs :: spec.name
  }

  /** All names of `specs` belong to `p`; every other name keeps its owner. */
  function Advertised(tools: map<string, PluginId>, p: PluginId, specs: seq<ToolSpec>): map<string, PluginId> {
    tools + map name | name in Names(specs) :: p
  }

  /** The tools that do not belong to `p`. */
  function Disowned(tools: map<string, PluginId>, p: PluginId): map<string, PluginId> {
    map t | t in tools && tools[t] != p :: tools[t]
  }

  function WithPrompt(sessions: Sessions, s: SessionId, message: Message): Sessions {
    var ctx := if s in sessions then sessions[s] else RootContext(s);
    sessions[s := ctx.(history := ctx.history + [message])]
  }

  function WithChild(sessions: Sessions, child: SessionId, parent: SessionId): Sessions {
    var inserted := sessions[child := ChildContext(child, parent)];
    if parent in inserted then
      inserted[parent := inserted[parent].(spawned := inserted[parent].spawned + [child])]
    else inserted
  }

  function SessionsAfter(sessions: Sessions, op: Op): Sessions {
    match op
    case RegisterChild(child, parent) => WithChild(sessions, child, parent)
    case Apply(UserPrompt(s, text, images)) => WithPrompt(sessions, s, User(Content(text, images)))
    case _ => sessions
  }

  function ToolsAfter(tools: map<string, PluginId>, op: Op): map<string, PluginId> {
    match op
    case Apply(PluginUp(p, specs)) => Advertised(tools, p, specs)
    case Apply(PluginDown(p)) => Disowned(tools, p)
    case _ => tools
  }

  function PluginsAfter(plugins: map<PluginId, seq<ToolSpec>>, op: Op): map<PluginId, seq<ToolSpec>> {
    match op
    case Apply(PluginUp(p, specs)) => plugins[p := specs]
    case Apply(PluginDown(p)) => plugins - {p}
    case _ => plugins
  }

  function ApprovalsAfter(approvals: map<ActionId, SessionId>, op: Op): map<ActionId, SessionId> {
    match op
    case Apply(ApprovalPending(s, call)) => approvals[call := s]
    case Apply(UserApproval(action)) => approvals - {action}
    case _ => approvals
  }

  function Step(st: State, op: Op): State {
    State(SessionsAfter(st.sessions, op), ToolsAfter(st.tools, op),
          PluginsAfter(st.plugins, op), ApprovalsAfter(st.approvals, op))
  }

  /** The state after a whole history. */
  function Fold(ops: seq<Op>): State {
    if ops == [] then EMPTY else Step(Fold(ops[..|ops| - 1]), ops[|ops| - 1])
  }

  function Kids(sessions: Sessions, s: SessionId): seq<SessionId> {
    if s in sessions then sessions[s].spawned else []
  }
}
