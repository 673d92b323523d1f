/** The client's state and, step by step, what a command, a tick or an event from the host
    makes of it (state.rs). These functions specify the class in AppState. */
module AppModel {
  import opened Basics
  import opened Text
  import opened Agents
  import opened A2a
  import opened Traces
  import TabOrder

  datatype HostStatus = Connecting | Online | Offline

  datatype Screen = TasksScreen | HostScreen | Canvas

  /** What the handshake settled, one flag per capability the modelled steps ask about. */
  datatype Session = Session(token: string, wsUrl: Option<string>, sync: bool, syncPeer: bool,
                             searchRejected: bool, gcRejected: bool, presetCrud: bool, steer: bool, a2a: bool,
                             model: bool, workspace: bool)

  datatype Connection = Connection(status: HostStatus, pendingDiscover: bool, session: Option<Session>,
                                   token: Option<string>, ws: Option<string>, lastRpc: Option<nat>)

  datatype Approval = Approval(approvalId: string, agentId: Id, taskId: Id)

  datatype Tabs = Tabs(screen: Screen, selectedTask: Option<Id>, selectedAgent: Option<Id>,
                       open: seq<Id>, remembered: map<Id, Id>, approvals: map<Id, Approval>,
                       agents: seq<AgentStub>)

  datatype CancelOk = CancelOk(agentId: Id, cancelled: bool)

  datatype CancelDone = CancelDone(agentId: Id, result: Result<CancelOk, ()>)

  /** The pending cancel, the worker threads still running and the results not yet drained. */
  datatype Cancel = Cancel(pending: Option<Id>, workers: seq<Id>, results: seq<CancelDone>)

  datatype SearchKind = TaskHit | ArtifactHit | WorkspaceHit | OtherHit

  datatype SearchItem = SearchItem(kind: SearchKind, id: Id)

  datatype Search = Search(text: string, items: seq<SearchItem>, ran: bool,
                           editedAt: Option<nat>, lastQ: Option<string>)

  datatype Dirs = Dirs(children: map<string, seq<string>>, expanded: set<string>)

  /** The host's catalog and the drafts the guarded commands read. */
  datatype Catalog = Catalog(workspaces: seq<Id>, workspaceId: Option<Id>, peerUrl: string,
                             presets: seq<Id>, newTaskPreset: Option<Id>)

  datatype App = App(conn: Connection, tabs: Tabs, composer: string, cancel: Cancel, gates: Flags,
                     search: Search, inbox: seq<InboxItem>, order: seq<Id>, dirs: Dirs,
                     catalog: Catalog, now: nat, trace: Trace)

  const Initial := App(
    Connection(Connecting, true, None, None, None, None),
    Tabs(TasksScreen, None, None, [], map[], map[], []),
    "", Cancel(None, [], []), NoFlags, Search("", [], false, None, None), [], [],
    Dirs(map[], {}), Catalog([], None, "", BUILTIN_PRESETS, None), 0, [])

  const BUILTIN_PRESETS: seq<Id> := ["planning", "review", "debug", "document"]

  /** How the host would answer each RPC of one step. */
  datatype Host = Host(
    pidFile: bool,
    connect: Option<Session>,
    alive: bool,
    workspaces: Option<seq<Id>>,
    agents: Id -> Option<seq<AgentStub>>,
    agent: Id -> Option<AgentStub>,
    context: Id -> Option<seq<ChatMessage>>,
    created: Option<AgentStub>,
    task: Option<Id>,
    cancel: Result<CancelOk, ()>,
    tree: Option<seq<string>>,
    query: Option<seq<SearchItem>>,
    delivered: Option<(Id, string)>,
    presets: Option<seq<Id>>,
    switched: Id -> Option<AgentStub>,
    roleUpdated: Id -> Option<AgentStub>,
    presetCreated: Option<Id>,
    ok: bool,
    unsupported: bool)

  // ------------------------------------------------------------ the trace

  function Note(s: App, o: Obs): (r: App)
    ensures Mon(r.trace) == Observe(Mon(s.trace), o)
    ensures Rpcs(r.trace) == Rpcs(s.trace) + if o.Sent? then [o.rpc] else []
  {
    OneMore(s.trace, o);
    s.(trace := s.trace + [o])
  }

  function Emit(s: App, rpc: Rpc): App {
    Note(s, Sent(rpc))
  }

  /** The connection, the gates and the tab order are as before, no guarded RPC was sent, and
      no RPC at all without a session. */
  ghost predicate Framed(s: App, r: App) {
    && r.conn == s.conn && r.gates == s.gates && r.order == s.order
    && Mon(r.trace).guarded == Mon(s.trace).guarded
    && (s.conn.session.None? ==> Rpcs(r.trace) == Rpcs(s.trace))
  }

  /** Nothing the monitor watches happened, and no RPC at all without a session. */
  ghost predicate Quiet(s: App, r: App) {
    && Mon(r.trace) == Mon(s.trace)
    && (s.conn.session.None? ==> Rpcs(r.trace) == Rpcs(s.trace))
  }

  // ------------------------------------------------------------ agents

  /** The position of the first agent called id. */
  function Find(agents: seq<AgentStub>, id: Id): (k: nat)
    ensures k <= |agents|
    ensures k < |agents| ==> agents[k].id == id
    ensures forall j :: 0 <= j < k ==> agents[j].id != id
  {
    if agents == [] || agents[0].id == id then 0 else 1 + Find(agents[1..], id)
  }

  function OfTask(agents: seq<AgentStub>, task: Id): seq<AgentStub> {
    Where(agents, (a: AgentStub) => a.taskId == task)
  }

  function NotOfTask(agents: seq<AgentStub>, task: Id): seq<AgentStub> {
    Where(agents, (a: AgentStub) => a.taskId != task)
  }

  function ReplaceAt(agents: seq<AgentStub>, k: nat, a: AgentStub): seq<AgentStub> {
    if k < |agents| then agents[k := a] else agents
  }

  function AgentsForSelectedTask(t: Tabs): seq<AgentStub> {
    if t.selectedTask.None? then [] else OfTask(t.agents, t.selectedTask.value)
  }

  /** The selected agent if it belongs to the selected task, else the first that does. */
  function SelectedAgent(t: Tabs): Option<AgentStub> {
    var agents := AgentsForSelectedTask(t);
    var k := if t.selectedAgent.Some? then Find(agents, t.selectedAgent.value) else |agents|;
    if k < |agents| then Some(agents[k]) else if agents != [] then Some(agents[0]) else None
  }

  predicate IsRunning(t: Tabs) {
    SelectedAgent(t).Some? && SelectedAgent(t).value.status == Running
  }

  function FirstId(agents: seq<AgentStub>): Option<Id> {
    if agents == [] then None else Some(agents[0].id)
  }

  // ------------------------------------------------------------ loading a canvas

  /** The agents remembered for the tasks that are not selected. */
  function RememberedElsewhere(t: Tabs): map<Id, Id> {
    if t.selectedTask.Some? then t.remembered - {t.selectedTask.value} else t.remembered
  }

  /** The same task stays selected, the same tabs open, and nothing about other tasks is forgotten. */
  ghost predicate Stays(t: Tabs, r: Tabs) {
    r.open == t.open && r.selectedTask == t.selectedTask && RememberedElsewhere(r) == RememberedElsewhere(t)
  }

  function Remember(t: Tabs): (r: Tabs)
    ensures Stays(t, r)
  {
    if t.selectedTask.Some? && t.selectedAgent.Some?
    then t.(remembered := t.remembered[t.selectedTask.value := t.selectedAgent.value])
    else t
  }

  function ReloadAgents(s: App, task: Id, h: Host): (r: App)
    ensures r == s.(tabs := r.tabs, trace := r.trace) && Quiet(s, r)
    ensures r.tabs == s.tabs.(agents := r.tabs.agents, selectedAgent := r.tabs.selectedAgent)
  {
    if s.conn.session.None? then s
    else
      var s := Emit(s, AgentList(task));
      match h.agents(task)
      case None => s
      case Some(items) =>
        var agents := NotOfTask(s.tabs.agents, task) + items;
        var listed := OfTask(agents, task);
        var valid := s.tabs.selectedAgent.Some? && Find(listed, s.tabs.selectedAgent.value) < |listed|;
        s.(tabs := s.tabs.(agents := agents, selectedAgent := if valid then s.tabs.selectedAgent else FirstId(listed)))
  }

  function LoadContext(s: App, agentId: Id, h: Host): (r: App)
    ensures r == s.(inbox := r.inbox, trace := r.trace) && Mon(r.trace) == Mon(s.trace)
    ensures IdsOnce(s.inbox) ==> IdsOnce(r.inbox)
  {
    var s := Emit(s, AgentContext(agentId));
    match h.context(agentId)
    case None => s
    case Some(messages) =>
      MergeAllFacts(s.inbox, Announced(agentId, messages));
      s.(inbox := MergeAll(s.inbox, Announced(agentId, messages)))
  }

  /** The first agent called id, as the host answers. */
  function Answered(agents: seq<AgentStub>, id: Id, reply: Option<AgentStub>): seq<AgentStub> {
    match reply
    case None => agents
    case Some(stub) => ReplaceAt(agents, Find(agents, id), stub)
  }

  /** Fetches one agent and its transcript. */
  function RefreshAgent(s: App, id: Id, h: Host): (r: App)
    requires s.conn.session.Some?
    ensures r == s.(tabs := r.tabs, inbox := r.inbox, trace := r.trace) && Mon(r.trace) == Mon(s.trace)
    ensures r.tabs == s.tabs.(agents := Answered(s.tabs.agents, id, h.agent(id)))
    ensures IdsOnce(s.inbox) ==> IdsOnce(r.inbox)
  {
    var s := Emit(s, AgentGet(id));
    LoadContext(s.(tabs := s.tabs.(agents := Answered(s.tabs.agents, id, h.agent(id)))), id, h)
  }

  function LoadSelectedAgent(s: App, h: Host): (r: App)
    ensures r == s.(tabs := r.tabs, inbox := r.inbox, trace := r.trace) && Quiet(s, r)
    ensures r.tabs == s.tabs.(agents := r.tabs.agents)
    ensures IdsOnce(s.inbox) ==> IdsOnce(r.inbox)
  {
    match SelectedAgent(s.tabs)
    case None => s
    case Some(agent) => if s.conn.session.None? then s else RefreshAgent(s, agent.id, h)
  }

  /** What loading a canvas may touch. */
  ghost predicate CanvasFrame(s: App, r: App) {
    r == s.(tabs := r.tabs, inbox := r.inbox, dirs := r.dirs, trace := r.trace)
  }

  function ReloadCanvas(s: App, task: Id, h: Host): (r: App)
    ensures CanvasFrame(s, r) && Quiet(s, r)
    ensures r.tabs == s.tabs.(agents := r.tabs.agents, selectedAgent := r.tabs.selectedAgent)
    ensures r.dirs == Dirs(map[], {})
    ensures IdsOnce(s.inbox) ==> IdsOnce(r.inbox)
  {
    LoadSelectedAgent(ReloadAgents(s.(dirs := Dirs(map[], {})), task, h), h)
  }

  /** The tabs when a task is opened, before its canvas is loaded. */
  function Opened(t: Tabs, id: Id): Tabs {
    var t := Remember(t);
    t.(open := if id in t.open then t.open else t.open + [id],
       selectedTask := Some(id),
       screen := Canvas,
       selectedAgent := if id in t.remembered then Some(t.remembered[id]) else None)
  }

  function OpenTask(s: App, id: Id, h: Host): (r: App)
    ensures CanvasFrame(s, r) && Quiet(s, r)
    ensures r.tabs == Opened(s.tabs, id).(agents := r.tabs.agents, selectedAgent := r.tabs.selectedAgent)
    ensures r.dirs == Dirs(map[], {})
    ensures IdsOnce(s.inbox) ==> IdsOnce(r.inbox)
  {
    ReloadCanvas(s.(tabs := Opened(s.tabs, id)), id, h)
  }

  function SwitchTaskTab(s: App, id: Id, h: Host): (r: App)
    ensures Framed(s, r)
  {
    if s.tabs.selectedTask == Some(id) then s else OpenTask(s, id, h)
  }

  function Closed(t: Tabs, id: Id): Tabs {
    t.(open := Where(t.open, o => o != id),
       remembered := t.remembered - {id},
       approvals := map k | k in t.approvals && t.approvals[k].taskId != id :: t.approvals[k])
  }

  function CloseTaskTab(s: App, id: Id, h: Host): (r: App)
    ensures Framed(s, r)
  {
    var t := Closed(s.tabs, id);
    if s.tabs.selectedTask != Some(id) then s.(tabs := t)
    else if t.open != [] then OpenTask(s.(tabs := t.(selectedTask := None)), Last(t.open), h)
    else s.(tabs := t.(selectedTask := None, selectedAgent := None, screen := TasksScreen))
  }

  function SelectAgent(s: App, id: Id, h: Host): (r: App)
    ensures Framed(s, r) && Stays(s.tabs, r.tabs)
  {
    if s.tabs.selectedAgent == Some(id) then s
    else LoadSelectedAgent(s.(tabs := Remember(s.tabs.(selectedAgent := Some(id)))), h)
  }

  // ------------------------------------------------------------ connection

  function WithoutCatalog(c: Catalog): Catalog {
    c.(workspaces := [], workspaceId := None)
  }

  function GoOffline(s: App): App {
    s.(conn := s.conn.(status := Offline, session := None, token := None, ws := None),
       catalog := WithoutCatalog(s.catalog))
  }

  function GoingAway(s: App, hostId: string): App {
    if hostId == "" then s
    else s.(conn := s.conn.(status := Offline, session := None, token := None, ws := None))
  }

  function RefreshCatalog(s: App, h: Host): (r: App)
    ensures r == s.(catalog := r.catalog, trace := r.trace) && Quiet(s, r)
  {
    if s.conn.session.None? then s
    else
      var s := Emit(s, TasksCatalog);
      match h.workspaces
      case None => s
      case Some(ws) =>
        s.(catalog :=
             if ws == [] then s.catalog.(workspaces := ws, workspaceId := None)
             else s.catalog.(workspaces := ws, workspaceId := Some(ws[0]), presets := LoadedPresets(s.conn, h)))
  }

  /** The host's presets if it keeps any, else the built-in ones. */
  function LoadedPresets(c: Connection, h: Host): seq<Id> {
    if c.session.Some? && c.session.value.workspace && h.presets.Some? && h.presets.value != [] then h.presets.value
    else BUILTIN_PRESETS
  }

  function RefreshCanvasAfterReconnect(s: App, h: Host): App {
    if s.tabs.selectedTask.Some? then ReloadCanvas(s, s.tabs.selectedTask.value, h) else s
  }

  function WsUrl(session: Session): Option<string> {
    if session.wsUrl.Some? && Trim(session.wsUrl.value) != "" then session.wsUrl else None
  }

  function ApplyDiscovery(s: App, h: Host): App {
    var s := s.(conn := s.conn.(status := Connecting, token := None));
    if !h.pidFile then GoOffline(s)
    else
      var s := Emit(s, Connect);
      match h.connect
      case None => GoOffline(s)
      case Some(session) =>
        var s := s.(conn := s.conn.(status := Online, session := Some(session), token := Some(session.token),
                                    ws := WsUrl(session), lastRpc := Some(s.now)));
        var s := RefreshCatalog(s, h);
        if s.tabs.screen == Canvas then RefreshCanvasAfterReconnect(s, h) else s
  }

  const KEEPALIVE_MS: nat := 5000

  function TickDiscovery(s: App, h: Host): App {
    if s.conn.pendingDiscover then ApplyDiscovery(s.(conn := s.conn.(pendingDiscover := false)), h)
    else if s.conn.status == Online
            && (s.conn.lastRpc.None? || s.conn.lastRpc.value + KEEPALIVE_MS <= s.now)
            && s.conn.session.Some? then
      var s := Emit(s, Keepalive);
      if h.alive then s.(conn := s.conn.(lastRpc := Some(s.now))) else GoOffline(s)
    else s
  }

  function RequestRetry(s: App): App {
    s.(conn := s.conn.(status := Connecting, pendingDiscover := true))
  }

  function Reconnected(s: App, h: Host): App {
    if s.conn.status == Online then RefreshCanvasAfterReconnect(s, h) else s
  }

  // ------------------------------------------------------------ tasks and agents

  function CreateTask(s: App, title: string, h: Host): (r: App)
    ensures Framed(s, r)
  {
    if s.conn.status != Online || s.catalog.workspaceId.None? || s.catalog.workspaceId.value !in s.catalog.workspaces
       || Trim(title) == "" || s.conn.session.None? then s
    else
      var s := Emit(s, TaskCreate(Trim(title)));
      match h.task
      case None => s
      case Some(id) => OpenTask(RefreshCatalog(s.(catalog := s.catalog.(newTaskPreset := None)), h), id, h)
  }

  /** A new agent is selected, remembered, listed and loaded. */
  function Added(s: App, stub: AgentStub, h: Host): (r: App)
    ensures Framed(s, r) && Stays(s.tabs, r.tabs)
  {
    var t := Remember(s.tabs.(selectedAgent := Some(stub.id)));
    LoadSelectedAgent(s.(tabs := t.(agents := t.agents + [stub])), h)
  }

  /** pickerReady: a provider is picked and may be used. */
  function CreateAgent(s: App, pickerReady: bool, h: Host): (r: App)
    ensures Framed(s, r) && Stays(s.tabs, r.tabs)
  {
    if s.conn.status != Online || s.tabs.selectedTask.None? || !pickerReady || s.conn.session.None? then s
    else
      var s := Emit(s, AgentCreate(s.tabs.selectedTask.value));
      match h.created
      case None => s
      case Some(stub) => Added(s, stub, h)
  }

  function CreateChild(s: App, pickerReady: bool, h: Host): (r: App)
    ensures Framed(s, r) && Stays(s.tabs, r.tabs)
  {
    var parent := SelectedAgent(s.tabs);
    if s.conn.status != Online || s.tabs.selectedTask.None? || !pickerReady || parent.None?
       || s.conn.session.None? || !s.conn.session.value.a2a then s
    else
      var s := Emit(s, AgentCreateChild(s.tabs.selectedTask.value, parent.value.id));
      match h.created
      case None => s
      case Some(stub) => Added(s, stub, h)
  }

  function WithoutMentions(inbox: seq<InboxItem>, id: Id): seq<InboxItem> {
    Where(inbox, (m: InboxItem) => m.toAgentId != id && m.fromAgentId != id)
  }

  function RemoveAgent(s: App, id: Id, h: Host): (r: App)
    ensures Framed(s, r) && Stays(s.tabs, r.tabs)
  {
    var t := s.tabs.(agents := Without(s.tabs.agents, id));
    var s := s.(tabs := t, inbox := WithoutMentions(s.inbox, id));
    if t.selectedAgent != Some(id) then s
    else
      var t := t.(selectedAgent := FirstId(AgentsForSelectedTask(t)));
      var s := s.(tabs := Remember(t));
      if t.selectedAgent.Some? then LoadSelectedAgent(s, h) else s
  }

  // ------------------------------------------------------------ events and approvals

  function ApprovalAsked(t: Tabs, approvalId: string, agentId: Id, taskId: Id): Tabs {
    if (taskId in t.open || t.selectedTask == Some(taskId)) && approvalId != ""
    then t.(approvals := t.approvals[agentId := Approval(approvalId, agentId, taskId)])
    else t
  }

  function StatusChanged(t: Tabs, taskId: Id, agentId: Id, status: AgentStatus): Tabs {
    if (t.selectedTask.Some? && t.selectedTask != Some(taskId))
       || (t.selectedAgent.Some? && t.selectedAgent != Some(agentId)) then t
    else t.(agents := SetStatus(t.agents, Find(t.agents, agentId), status))
  }

  function SetStatus(agents: seq<AgentStub>, k: nat, status: AgentStatus): seq<AgentStub> {
    if k < |agents| then agents[k := agents[k].(status := status)] else agents
  }

  function RespondApproval(s: App, decision: string, h: Host): (r: App)
    ensures Framed(s, r) && Stays(s.tabs, r.tabs)
  {
    var agent := SelectedAgent(s.tabs);
    if agent.None? || agent.value.id !in s.tabs.approvals || s.conn.session.None? then s
    else
      var approval := s.tabs.approvals[agent.value.id];
      var s := Emit(s, ApprovalRespond(approval.approvalId, decision));
      if h.ok then s.(tabs := s.tabs.(approvals := s.tabs.approvals - {approval.agentId})) else s
  }

  // ------------------------------------------------------------ composing and cancelling

  predicate ComposerEnabled(s: App) {
    var agent := SelectedAgent(s.tabs);
    agent.Some? && !agent.value.IsTerminal() && s.conn.status == Online && agent.value.status != Running
  }

  function SendComposer(s: App, h: Host): (r: App)
    ensures Framed(s, r) && Stays(s.tabs, r.tabs)
  {
    if !ComposerEnabled(s) || s.cancel.pending.Some? || Trim(s.composer) == "" || s.conn.session.None? then s
    else
      var s := Emit(s, AgentSend(SelectedAgent(s.tabs).value.id, Trim(s.composer)));
      if h.ok then s.(composer := "") else s
  }

  function SteerComposer(s: App, h: Host): (r: App)
    ensures Framed(s, r) && Stays(s.tabs, r.tabs)
  {
    if !IsRunning(s.tabs) || s.cancel.pending.Some? || Trim(s.composer) == "" || s.conn.session.None?
       || !s.conn.session.value.steer then s
    else
      var s := Emit(s, AgentSteer(SelectedAgent(s.tabs).value.id, Trim(s.composer)));
      if h.ok then s.(composer := "") else s
  }

  function ModEnter(s: App, h: Host): (r: App)
    ensures Framed(s, r) && Stays(s.tabs, r.tabs)
  {
    if IsRunning(s.tabs) then SteerComposer(s, h) else SendComposer(s, h)
  }

  function CancelRunningAgent(s: App): (r: App)
    ensures Framed(s, r) && Stays(s.tabs, r.tabs)
  {
    if s.cancel.pending.Some? || !IsRunning(s.tabs) || s.conn.session.None? then s
    else
      var a := SelectedAgent(s.tabs).value.id;
      Note(s.(cancel := s.cancel.(pending := Some(a), workers := s.cancel.workers + [a])), CancelStarted(a))
  }

  /** A worker thread gets its answer and queues it. */
  function WorkerDone(s: App, h: Host): (r: App)
    ensures r == s.(cancel := r.cancel, trace := r.trace)
  {
    if s.cancel.workers == [] then s
    else
      var a := s.cancel.workers[0];
      Emit(s.(cancel := s.cancel.(workers := s.cancel.workers[1..],
                                  results := s.cancel.results + [CancelDone(a, h.cancel)])),
           AgentCancel(a))
  }

  /** The first agent called either name. */
  function FindEither(agents: seq<AgentStub>, a: Id, b: Id): nat {
    var i, j := Find(agents, a), Find(agents, b);
    if i < j then i else j
  }

  function ApplyCancel(s: App, done: CancelDone): (r: App)
    ensures Framed(s, r) && Stays(s.tabs, r.tabs)
  {
    var pending := s.cancel.pending;
    var s :=
      match done.result
      case Ok(ok) =>
        var p := if pending == Some(done.agentId) || pending == Some(ok.agentId) || ok.cancelled then None else pending;
        var k := FindEither(s.tabs.agents, ok.agentId, done.agentId);
        s.(cancel := s.cancel.(pending := p), tabs := s.tabs.(agents := SetStatus(s.tabs.agents, k, Idle)))
      case Err(_) =>
        s.(cancel := s.cancel.(pending := if pending == Some(done.agentId) then None else pending));
    Note(s, CancelEnded(done.agentId))
  }

  function ApplyCancels(s: App, dones: seq<CancelDone>): (r: App)
    ensures Framed(s, r) && Stays(s.tabs, r.tabs)
  {
    if dones == [] then s else ApplyCancel(ApplyCancels(s, dones[..|dones| - 1]), Last(dones))
  }

  function TickRpc(s: App, h: Host): (r: App)
    ensures Framed(s, r) && Stays(s.tabs, r.tabs)
  {
    var drained := s.(cancel := s.cancel.(results := []));
    TickSearchDebounce(ApplyCancels(drained, s.cancel.results), h)
  }

  // ------------------------------------------------------------ search

  function SubmitSearch(s: App, h: Host): (r: App)
    ensures Framed(s, r) && Stays(s.tabs, r.tabs)
  {
    var q := Trim(s.search.text);
    var s := s.(search := s.search.(editedAt := None));
    if q == "" then Note(s.(search := s.search.(items := [], ran := false, lastQ := None)), Cleared)
    else if (s.search.lastQ == Some(q) && s.search.ran)
            || s.conn.session.None? || s.conn.session.value.searchRejected then s
    else
      var items := match h.query { case None => [] case Some(found) => found };
      Emit(s.(search := s.search.(items := items, ran := true, lastQ := Some(q))), SearchQuery(q))
  }

  function EditSearch(s: App, text: string): (r: App)
    ensures Framed(s, r) && Stays(s.tabs, r.tabs)
  {
    Note(s.(search := s.search.(text := text, editedAt := Some(s.now))), Edited(s.now))
  }

  function TickSearchDebounce(s: App, h: Host): (r: App)
    ensures Framed(s, r) && Stays(s.tabs, r.tabs)
  {
    if s.search.editedAt.None? || s.now < s.search.editedAt.value + SEARCH_DEBOUNCE_MS then s
    else SubmitSearch(Note(s, Debounced(s.now)), h)
  }

  function DismissSearch(s: App): (r: App)
    ensures Framed(s, r) && Stays(s.tabs, r.tabs)
  {
    Note(s.(search := s.search.(items := [], ran := false, lastQ := None, editedAt := None)), Cleared)
  }

  /** artifactTask: the known task of a found artifact. */
  function ActivateSearchResult(s: App, index: nat, artifactTask: Option<Id>, h: Host): (r: App)
    ensures Framed(s, r)
  {
    if index >= |s.search.items| then s
    else
      var item := s.search.items[index];
      var s :=
        match item.kind
        case TaskHit => OpenTask(s, item.id, h)
        case ArtifactHit =>
          if artifactTask.Some? && s.tabs.selectedTask != artifactTask then OpenTask(s, artifactTask.value, h) else s
        case WorkspaceHit => s.(catalog := s.catalog.(workspaceId := Some(item.id)))
        case OtherHit => s;
      DismissSearch(s)
  }

  function SearchEnter(s: App, artifactTask: Option<Id>, h: Host): (r: App)
    ensures Framed(s, r)
  {
    if s.search.ran && s.search.items != [] then ActivateSearchResult(s, 0, artifactTask, h)
    else
      var s := SubmitSearch(s, h);
      if s.search.items != [] then ActivateSearchResult(s, 0, artifactTask, h) else s
  }

  predicate PopupOpen(s: Search) {
    s.ran || s.items != []
  }

  // ------------------------------------------------------------ guarded commands

  predicate HasWorkspaceId(s: App) {
    s.catalog.workspaceId.Some? && Trim(s.catalog.workspaceId.value) != ""
  }

  function SelectedUserPreset(c: Catalog): Option<Id> {
    if c.newTaskPreset.Some? && c.newTaskPreset.value !in BUILTIN_PRESETS && c.newTaskPreset.value in c.presets
    then c.newTaskPreset else None
  }

  predicate Deletable(preset: Option<Id>) {
    preset.Some? && Trim(preset.value) != "" && Trim(preset.value) !in BUILTIN_PRESETS
  }

  /** The host offers what the gate guards. */
  predicate Offered(s: App, g: Gate) {
    s.conn.session.Some? &&
    match g
    case SyncImport => s.conn.session.value.sync
    case SyncPull => s.conn.session.value.syncPeer
    case WorktreeGc => !s.conn.session.value.gcRejected
    case PresetDelete => s.conn.session.value.presetCrud
  }

  /** What the guarded command still needs once it is offered. */
  predicate Prepared(s: App, g: Gate) {
    match g
    case SyncImport => HasWorkspaceId(s)
    case SyncPull => HasWorkspaceId(s) && Trim(s.catalog.peerUrl) != ""
    case WorktreeGc => true
    case PresetDelete => Deletable(SelectedUserPreset(s.catalog))
  }

  function CloseGate(s: App, g: Gate): App {
    s.(gates := Put(s.gates, g, false))
  }

  function RequestGate(s: App, g: Gate): (r: App)
    ensures r == s.(gates := r.gates, trace := r.trace)
  {
    if g == WorktreeGc && s.conn.status != Online then s
    else if g == WorktreeGc && s.conn.session.None? then OpenGate(s, g)
    else if !Offered(s, g) then CloseGate(s, g)
    else if !Prepared(s, g) then s
    else OpenGate(s, g)
  }

  function OpenGate(s: App, g: Gate): App {
    Note(s.(gates := Put(s.gates, g, true)), Requested(g))
  }

  function WithdrawGate(s: App, g: Gate): (r: App)
    ensures r == s.(gates := r.gates, trace := r.trace)
  {
    Note(CloseGate(s, g), Withdrawn(g))
  }

  /** What a guarded command does when the host carried it out. */
  function AfterGuarded(s: App, g: Gate, h: Host): App {
    match g
    case SyncImport =>
      var s := RefreshCatalog(s, h);
      if s.tabs.selectedTask.None? then s
      else
        var s := ReloadAgents(s, s.tabs.selectedTask.value, h);
        if s.tabs.selectedAgent.Some? then LoadSelectedAgent(s, h) else s
    case SyncPull => RefreshCatalog(s, h)
    case WorktreeGc => s
    case PresetDelete => s.(catalog := s.catalog.(newTaskPreset := None, presets := LoadedPresets(s.conn, h)))
  }

  /** picked: for an import, a readable archive was chosen. */
  function ConfirmGate(s: App, g: Gate, picked: bool, h: Host): App {
    if !Has(s.gates, g) then s
    else
      var s := Note(CloseGate(s, g), Confirmed(g));
      if (g == SyncImport && !picked) || !Offered(s, g) || !Prepared(s, g) then s
      else
        var s := Emit(s, Guarded(g));
        if h.ok then AfterGuarded(s, g, h) else s
  }

  // ------------------------------------------------------------ other forms

  /** Only catalog, gates and trace may change, no gate opens, and the monitor sees nothing. */
  ghost predicate FormFrame(s: App, r: App) {
    && r == s.(gates := r.gates, catalog := r.catalog, trace := r.trace)
    && Quiet(s, r)
    && forall g :: Has(r.gates, g) ==> Has(s.gates, g)
  }

  /** An edit of the host's catalog; the client reads it again if the host took it. */
  function EditCatalog(s: App, rpc: Rpc, h: Host): (r: App)
    requires s.conn.session.Some? && (rpc.WorkspaceAdd? || rpc.TaskRename? || rpc.TaskArchive?)
    ensures FormFrame(s, r) && r.gates == s.gates
  {
    var s := Emit(s, rpc);
    if h.ok then RefreshCatalog(s, h) else s
  }

  function AddWorkspace(s: App, path: string, h: Host): (r: App)
    ensures FormFrame(s, r)
  {
    if Trim(path) == "" || s.conn.status != Online || s.conn.session.None? then s
    else EditCatalog(s, WorkspaceAdd(Trim(path)), h)
  }

  function RenameTask(s: App, id: Id, title: string, h: Host): (r: App)
    ensures FormFrame(s, r)
  {
    if Trim(title) == "" || s.conn.session.None? then s else EditCatalog(s, TaskRename(id, Trim(title)), h)
  }

  function ArchiveTask(s: App, id: Id, h: Host): (r: App)
    ensures FormFrame(s, r)
  {
    if s.conn.session.None? then s else EditCatalog(s, TaskArchive(id), h)
  }

  /** A host that turns out not to support a command closes the gate of its family. */
  function AfterAnswer(s: App, g: Gate, h: Host): (r: App)
    ensures FormFrame(s, r) && r.catalog == s.catalog && r.trace == s.trace
  {
    if !h.ok && h.unsupported then CloseGate(s, g) else s
  }

  /** anyTask: there is a task to export. */
  function ExportSync(s: App, anyTask: bool, h: Host): (r: App)
    ensures FormFrame(s, r)
  {
    if !Offered(s, SyncImport) then CloseGate(s, SyncImport)
    else if !anyTask then s
    else AfterAnswer(Emit(s, SyncExport), SyncImport, h)
  }

  function PushSync(s: App, h: Host): (r: App)
    ensures FormFrame(s, r)
  {
    if !Offered(s, SyncPull) then CloseGate(s, SyncPull)
    else if Trim(s.catalog.peerUrl) == "" then s
    else AfterAnswer(Emit(s, SyncPush), SyncPull, h)
  }

  /** valid: the drafts make a preset. */
  function CreatePreset(s: App, valid: bool, h: Host): (r: App)
    ensures FormFrame(s, r)
  {
    if !Offered(s, PresetDelete) then CloseGate(s, PresetDelete)
    else if !valid then s
    else
      var s := Emit(s, PresetCreate);
      match h.presetCreated
      case None => if h.unsupported then CloseGate(s, PresetDelete) else s
      case Some(id) =>
        var c := s.catalog.(presets := LoadedPresets(s.conn, h));
        s.(catalog := if id != "" then PresetPicked(c, Some(id)) else c)
  }

  function SavePreset(s: App, valid: bool, h: Host): (r: App)
    ensures FormFrame(s, r)
  {
    var preset := SelectedUserPreset(s.catalog);
    if !Offered(s, PresetDelete) then CloseGate(s, PresetDelete)
    else if !valid || !Deletable(preset) then s
    else
      var s := Emit(s, PresetUpdate(preset.value));
      if h.ok then s.(catalog := s.catalog.(presets := LoadedPresets(s.conn, h))) else AfterAnswer(s, PresetDelete, h)
  }

  /** The host's entry of the switched agent is taken over, then both are read again. */
  function ApplySwitched(s: App, id: Id, stub: AgentStub, h: Host): (r: App)
    requires s.conn.session.Some?
    ensures Framed(s, r) && r.tabs == s.tabs.(agents := r.tabs.agents)
    ensures IdsOnce(s.inbox) ==> IdsOnce(r.inbox)
    ensures r == s.(tabs := r.tabs, inbox := r.inbox, trace := r.trace) && Mon(r.trace) == Mon(s.trace)
    ensures r.tabs.agents == Answered(Answered(s.tabs.agents, id, Some(stub)), id, h.agent(id))
  {
    RefreshAgent(s.(tabs := s.tabs.(agents := Answered(s.tabs.agents, id, Some(stub)))), id, h)
  }

  function AskSwitch(s: App, id: Id, h: Host): (r: App)
    requires s.conn.session.Some?
    ensures Framed(s, r) && r.tabs == s.tabs.(agents := r.tabs.agents)
  {
    var s := Emit(s, AgentSwitch(id));
    match h.switched(id)
    case None => s
    case Some(stub) => ApplySwitched(s, id, stub, h)
  }

  /** ready: a provider or profile is picked and may be used. */
  function SwitchAgent(s: App, ready: bool, h: Host): (r: App)
    ensures Framed(s, r) && Stays(s.tabs, r.tabs)
  {
    var agent := SelectedAgent(s.tabs);
    if s.conn.session.None? || !s.conn.session.value.model || IsRunning(s.tabs) || agent.None? || !ready then s
    else AskSwitch(s, agent.value.id, h)
  }

  /** changed: a role other than the current one was picked. */
  function UpdateRole(s: App, changed: bool, h: Host): (r: App)
    ensures Framed(s, r) && Stays(s.tabs, r.tabs)
  {
    if !changed || s.tabs.selectedAgent.None? || s.conn.session.None? || !s.conn.session.value.workspace then s
    else
      var id := s.tabs.selectedAgent.value;
      var s := Emit(s, AgentUpdateRole(id));
      s.(tabs := s.tabs.(agents := Answered(s.tabs.agents, id, h.roleUpdated(id))))
  }

  // ------------------------------------------------------------ inbox, tab order, directories

  function Receive(s: App, item: InboxItem): (r: App)
    ensures Framed(s, r) && Stays(s.tabs, r.tabs)
  {
    s.(inbox := Merge(s.inbox, item))
  }

  /** The host's receipt of a message from one agent to another. */
  function AfterDelivery(s: App, from: Id, text: string, h: Host): (r: App)
    ensures Framed(s, r) && Stays(s.tabs, r.tabs)
  {
    match h.delivered
    case None => s
    case Some((to, messageId)) => Receive(s, InboxItem(from, to, messageId, text))
  }

  /** inboxLive: the provider of the target takes messages. */
  function Deliver(s: App, target: Option<Id>, text: string, inboxLive: bool, h: Host): (r: App)
    ensures Framed(s, r) && Stays(s.tabs, r.tabs)
  {
    var from := SelectedAgent(s.tabs);
    if s.conn.session.None? || !s.conn.session.value.a2a || from.None? || target.None? || from.value.id == target.value
       || Find(s.tabs.agents, target.value) >= |s.tabs.agents| || !inboxLive || Trim(text) == "" then s
    else
      var s := Emit(s, A2aDeliver(from.value.id, target.value, Trim(text)));
      AfterDelivery(s, from.value.id, Trim(text), h)
  }

  function Listed(t: Tabs): seq<Id> {
    AgentIds(AgentsForSelectedTask(t))
  }

  /** The listed agents a stored order names, each as found in the list. */
  function Named(order: seq<Id>, listed: seq<AgentStub>): seq<AgentStub> {
    if order == [] then []
    else
      var k := Find(listed, Last(order));
      Named(order[..|order| - 1], listed) + if k < |listed| then [listed[k]] else []
  }

  /** The agents as the tab bar shows them: those the stored order names, then the others. */
  function OrderedAgents(order: seq<Id>, listed: seq<AgentStub>): seq<AgentStub> {
    Named(order, listed) + Where(listed, (a: AgentStub) => a.id !in order)
  }

  /** What the canvas builds the conversation tree over. */
  function TabBar(s: App): seq<AgentStub> {
    OrderedAgents(s.order, AgentsForSelectedTask(s.tabs))
  }

  function DropAgentOnTile(s: App, agentId: Id, tileId: Id): App {
    s.(order := TabOrder.Drop(s.order, Listed(s.tabs), agentId, tileId))
  }

  function ToggleDir(s: App, path: string, h: Host): (r: App)
    ensures Framed(s, r) && Stays(s.tabs, r.tabs)
  {
    if path in s.dirs.expanded then s.(dirs := s.dirs.(expanded := s.dirs.expanded - {path}))
    else if path in s.dirs.children then s.(dirs := s.dirs.(expanded := s.dirs.expanded + {path}))
    else if s.catalog.workspaceId.None? || s.conn.session.None? then s
    else
      var s := Emit(s, FilesTree(path));
      match h.tree
      case None => s
      case Some(items) =>
        s.(dirs := Dirs(s.dirs.children[path := items], s.dirs.expanded + {path}))
  }

  // ------------------------------------------------------------ one step

  datatype Event =
    | Discover | Retry | WsReconnected | HostGoingAway(hostId: string)
    | Open(id: Id) | Switch(id: Id) | Close(id: Id) | Select(id: Id) | ShowTasks | ShowHost
    | NewTask(title: string) | NewAgent(pickerReady: bool) | NewChild(pickerReady: bool) | Delete(id: Id)
    | WsApproval(approvalId: string, agentId: Id, taskId: Id) | Respond(decision: string)
    | WsStatus(taskId: Id, agentId: Id, status: AgentStatus)
    | Type(text: string) | Enter | Send | Steer | Stop | WorkerReply | Tick
    | Request(gate: Gate) | Withdraw(gate: Gate) | Confirm(gate: Gate, picked: bool)
    | SetPeerUrl(url: string) | PickPreset(preset: Option<Id>)
    | SearchEdit(text: string) | SearchSubmit | SearchReturn(artifactTask: Option<Id>)
    | SearchPick(index: nat, artifactTask: Option<Id>) | SearchDismiss
    | WsDelivered(from: Id, to: Id, messageId: string)
    | DeliverTo(target: Option<Id>, text: string, inboxLive: bool)
    | Drag(agentId: Id, tileId: Id) | Toggle(path: string) | PassTime(ms: nat)
    | SwitchModel(ready: bool) | PickRole(changed: bool)
    | NewWorkspace(path: string) | Rename(id: Id, title: string) | Archive(id: Id)
    | Export(anyTask: bool) | Push | NewPreset(valid: bool) | EditPreset(valid: bool)

  function PresetPicked(c: Catalog, preset: Option<Id>): Catalog {
    if preset.Some? && (preset.value in BUILTIN_PRESETS || preset.value in c.presets)
    then c.(newTaskPreset := preset) else c.(newTaskPreset := None)
  }

  /** What an event is about. */
  datatype Family = OfConnection | OfTabs | OfTalk | OfSearch | OfGates | OfAgents | OfForms | OfDrafts

  function FamilyOf(e: Event): Family {
    match e
    case Discover | Retry | WsReconnected | HostGoingAway(_) => OfConnection
    case Open(_) | Switch(_) | Close(_) | Select(_) | NewTask(_) | NewAgent(_) | NewChild(_) | Delete(_) => OfTabs
    case Enter | Send | Steer | Stop | WorkerReply | Tick | Respond(_) => OfTalk
    case SearchEdit(_) | SearchSubmit | SearchReturn(_) | SearchPick(_, _) | SearchDismiss => OfSearch
    case Request(_) | Withdraw(_) | Confirm(_, _) => OfGates
    case WsApproval(_, _, _) | WsStatus(_, _, _) | WsDelivered(_, _, _) | DeliverTo(_, _, _) => OfAgents
    case Drag(_, _) | Toggle(_) | SwitchModel(_) | PickRole(_) => OfAgents
    case NewWorkspace(_) | Rename(_, _) | Archive(_) | Export(_) | Push | NewPreset(_) | EditPreset(_) => OfForms
    case _ => OfDrafts
  }

  predicate AboutConnection(e: Event) { FamilyOf(e) == OfConnection }

  predicate AboutTabs(e: Event) { FamilyOf(e) == OfTabs }

  predicate AboutTalk(e: Event) { FamilyOf(e) == OfTalk }

  predicate AboutSearch(e: Event) { FamilyOf(e) == OfSearch }

  predicate AboutGates(e: Event) { FamilyOf(e) == OfGates }

  predicate AboutAgents(e: Event) { FamilyOf(e) == OfAgents }

  predicate AboutForms(e: Event) { FamilyOf(e) == OfForms }

  function ConnectionStep(s: App, e: Event, h: Host): App
    requires AboutConnection(e)
  {
    match e
    case Discover => TickDiscovery(s, h)
    case Retry => RequestRetry(s)
    case WsReconnected => Reconnected(s, h)
    case HostGoingAway(hostId) => GoingAway(s, hostId)
  }

  function TabStep(s: App, e: Event, h: Host): App
    requires AboutTabs(e)
  {
    match e
    case Open(id) => OpenTask(s, id, h)
    case Switch(id) => SwitchTaskTab(s, id, h)
    case Close(id) => CloseTaskTab(s, id, h)
    case Select(id) => SelectAgent(s, id, h)
    case NewTask(title) => CreateTask(s, title, h)
    case NewAgent(ready) => CreateAgent(s, ready, h)
    case NewChild(ready) => CreateChild(s, ready, h)
    case Delete(id) => RemoveAgent(s, id, h)
  }

  function TalkStep(s: App, e: Event, h: Host): App
    requires AboutTalk(e)
  {
    match e
    case Enter => ModEnter(s, h)
    case Send => SendComposer(s, h)
    case Steer => SteerComposer(s, h)
    case Stop => CancelRunningAgent(s)
    case WorkerReply => WorkerDone(s, h)
    case Tick => TickRpc(s, h)
    case Respond(decision) => RespondApproval(s, decision, h)
  }

  function SearchStep(s: App, e: Event, h: Host): App
    requires AboutSearch(e)
  {
    match e
    case SearchEdit(text) => EditSearch(s, text)
    case SearchSubmit => SubmitSearch(s, h)
    case SearchReturn(artifactTask) => SearchEnter(s, artifactTask, h)
    case SearchPick(index, artifactTask) => ActivateSearchResult(s, index, artifactTask, h)
    case SearchDismiss => DismissSearch(s)
  }

  function GateStep(s: App, e: Event, h: Host): App
    requires AboutGates(e)
  {
    match e
    case Request(g) => RequestGate(s, g)
    case Withdraw(g) => WithdrawGate(s, g)
    case Confirm(g, picked) => ConfirmGate(s, g, picked, h)
  }

  function AgentsStep(s: App, e: Event, h: Host): App
    requires AboutAgents(e)
  {
    match e
    case WsApproval(approvalId, agentId, taskId) => s.(tabs := ApprovalAsked(s.tabs, approvalId, agentId, taskId))
    case WsStatus(taskId, agentId, status) => s.(tabs := StatusChanged(s.tabs, taskId, agentId, status))
    case WsDelivered(from, to, messageId) => Receive(s, InboxItem(from, to, messageId, ""))
    case DeliverTo(target, text, live) => Deliver(s, target, text, live, h)
    case Drag(agentId, tileId) => DropAgentOnTile(s, agentId, tileId)
    case Toggle(path) => ToggleDir(s, path, h)
    case SwitchModel(ready) => SwitchAgent(s, ready, h)
    case PickRole(changed) => UpdateRole(s, changed, h)
  }

  function FormStep(s: App, e: Event, h: Host): (r: App)
    requires AboutForms(e)
    ensures FormFrame(s, r)
  {
    match e
    case NewWorkspace(path) => AddWorkspace(s, path, h)
    case Rename(id, title) => RenameTask(s, id, title, h)
    case Archive(id) => ArchiveTask(s, id, h)
    case Export(anyTask) => ExportSync(s, anyTask, h)
    case Push => PushSync(s, h)
    case NewPreset(valid) => CreatePreset(s, valid, h)
    case EditPreset(valid) => SavePreset(s, valid, h)
  }

  /** The rest: screens, drafts and the clock. */
  function DraftStep(s: App, e: Event): App {
    match e
    case ShowTasks => s.(tabs := s.tabs.(screen := TasksScreen))
    case ShowHost => s.(tabs := s.tabs.(screen := HostScreen))
    case Type(text) => s.(composer := text)
    case SetPeerUrl(url) => s.(catalog := s.catalog.(peerUrl := url))
    case PickPreset(preset) => s.(catalog := PresetPicked(s.catalog, preset))
    case PassTime(ms) => s.(now := s.now + ms)
    case _ => s
  }

  function Step(s: App, e: Event, h: Host): App {
    match FamilyOf(e)
    case OfConnection => ConnectionStep(s, e, h)
    case OfTabs => TabStep(s, e, h)
    case OfTalk => TalkStep(s, e, h)
    case OfSearch => SearchStep(s, e, h)
    case OfGates => GateStep(s, e, h)
    case OfAgents => AgentsStep(s, e, h)
    case OfForms => FormStep(s, e, h)
    case OfDrafts => DraftStep(s, e)
  }

  /** A run: events in order, each with the host's answers at the time. */
  function Run(s: App, events: seq<(Event, Host)>): App {
    if events == [] then s
    else
      var (e, h) := Last(events);
      Step(Run(s, events[..|events| - 1]), e, h)
  }
}
