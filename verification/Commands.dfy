/** Which command of the client reaches the host, and when: every RPC but those that only read. */
module Commands {
  import opened Basics
  import opened Text
  import opened Agents
  import opened A2a
  import opened Traces
  import opened AppModel
  import opened AppRuns
  import opened Exchange

  /** Not one of the RPCs by which the client reads lists and transcripts again. */
  predicate IsCommand(rpc: Rpc) {
    !rpc.TasksCatalog? && !rpc.AgentList? && !rpc.AgentGet? && !rpc.AgentContext?
  }

  /** The commands of a trace, in order. */
  function CommandsOf(t: Trace): seq<Rpc> {
    Where(Rpcs(t), IsCommand)
  }

  // ------------------------------------------------------------ what licenses a command

  predicate IsOnline(s: App) {
    s.conn.status == Online && s.conn.session.Some?
  }

  predicate Shown(s: App, id: Id) {
    SelectedAgent(s.tabs).Some? && SelectedAgent(s.tabs).value.id == id
  }

  /** The user's own preset that is picked for new tasks. */
  predicate PickedPreset(s: App, p: Id) {
    s.catalog.newTaskPreset == Some(p) && p !in BUILTIN_PRESETS && p in s.catalog.presets
    && Trim(p) != "" && Trim(p) !in BUILTIN_PRESETS
  }

  predicate WorkspaceNamed(s: App) {
    s.catalog.workspaceId.Some? && Trim(s.catalog.workspaceId.value) != ""
  }

  predicate DebounceIsOver(s: App) {
    s.search.editedAt.Some? && s.search.editedAt.value + 350 <= s.now
  }

  /** e submits the search text: the button, return while there is nothing to pick, or the tick after
      the debounce. */
  predicate Submits(s: App, e: Event) {
    e.SearchSubmit? || (e.Tick? && DebounceIsOver(s)) || (e.SearchReturn? && !(s.search.ran && s.search.items != []))
  }

  /** What is in the search box asks for q: a new text, and a host that takes it. */
  predicate Asks(s: App, q: string) {
    q == Trim(s.search.text) != "" && !(s.search.ran && s.search.lastQ == Some(q))
    && s.conn.session.Some? && !s.conn.session.value.searchRejected
  }

  predicate MayConfirm(s: App, g: Gate, picked: bool) {
    Has(s.gates, g) && s.conn.session.Some? && var session := s.conn.session.value;
    match g
    case SyncImport => session.sync && picked && WorkspaceNamed(s)
    case SyncPull => session.syncPeer && WorkspaceNamed(s) && Trim(s.catalog.peerUrl) != ""
    case WorktreeGc => !session.gcRejected
    case PresetDelete => session.presetCrud && exists p :: p in s.catalog.presets && PickedPreset(s, p)
  }

  /** Event e in state s makes the client send this command: one about the host, or for something new. */
  predicate SendsToStart(s: App, e: Event, h: Host, rpc: Rpc) {
    match rpc
    case Connect => e.Discover? && s.conn.pendingDiscover && h.pidFile
    case Keepalive =>
      e.Discover? && !s.conn.pendingDiscover && IsOnline(s)
      && (s.conn.lastRpc.None? || s.conn.lastRpc.value + 5000 <= s.now)
    case TaskCreate(title) =>
      e.NewTask? && IsOnline(s) && title == Trim(e.title) != ""
      && s.catalog.workspaceId.Some? && s.catalog.workspaceId.value in s.catalog.workspaces
    case AgentCreate(task) => e.NewAgent? && e.pickerReady && IsOnline(s) && s.tabs.selectedTask == Some(task)
    case AgentCreateChild(task, parent) =>
      e.NewChild? && e.pickerReady && IsOnline(s) && s.conn.session.value.a2a
      && s.tabs.selectedTask == Some(task) && Shown(s, parent)
    case _ => false
  }

  /** One to an agent at work, a search, or one behind a confirmation. */
  ghost predicate SendsToAct(s: App, e: Event, rpc: Rpc) {
    match rpc
    case AgentSend(_, _) => Says(s, e, rpc)
    case AgentSteer(_, _) => Says(s, e, rpc)
    case AgentCancel(id) => e.WorkerReply? && s.cancel.workers != [] && s.cancel.workers[0] == id
    case ApprovalRespond(approvalId, decision) =>
      e.Respond? && e.decision == decision && s.conn.session.Some?
      && exists id :: id in s.tabs.approvals && Shown(s, id) && s.tabs.approvals[id].approvalId == approvalId
    case SearchQuery(q) => Submits(s, e) && Asks(s, q)
    case Guarded(g) => e.Confirm? && e.gate == g && MayConfirm(s, g, e.picked)
    case _ => false
  }

  /** One from a form. */
  predicate SendsFromForm(s: App, e: Event, rpc: Rpc) {
    match rpc
    case WorkspaceAdd(path) => e.NewWorkspace? && IsOnline(s) && path == Trim(e.path) != ""
    case TaskRename(id, title) => e.Rename? && e.id == id && s.conn.session.Some? && title == Trim(e.title) != ""
    case TaskArchive(id) => e.Archive? && e.id == id && s.conn.session.Some?
    case SyncExport => e.Export? && e.anyTask && s.conn.session.Some? && s.conn.session.value.sync
    case SyncPush =>
      e.Push? && s.conn.session.Some? && s.conn.session.value.syncPeer && Trim(s.catalog.peerUrl) != ""
    case PresetCreate => e.NewPreset? && e.valid && s.conn.session.Some? && s.conn.session.value.presetCrud
    case PresetUpdate(p) =>
      e.EditPreset? && e.valid && s.conn.session.Some? && s.conn.session.value.presetCrud && PickedPreset(s, p)
    case _ => false
  }

  /** One between or about agents, or for a directory. */
  predicate SendsAboutAgents(s: App, e: Event, rpc: Rpc) {
    match rpc
    case A2aDeliver(from, to, content) =>
      e.DeliverTo? && e.inboxLive && s.conn.session.Some? && s.conn.session.value.a2a
      && Shown(s, from) && e.target == Some(to) && from != to
      && to in AgentIds(s.tabs.agents) && content == Trim(e.text) != ""
    case FilesTree(path) =>
      e.Toggle? && e.path == path && path !in s.dirs.expanded && path !in s.dirs.children
      && s.catalog.workspaceId.Some? && s.conn.session.Some?
    case AgentSwitch(id) =>
      e.SwitchModel? && e.ready && s.conn.session.Some? && s.conn.session.value.model
      && Shown(s, id) && SelectedAgent(s.tabs).value.status != Running
    case AgentUpdateRole(id) =>
      e.PickRole? && e.changed && s.conn.session.Some? && s.conn.session.value.workspace
      && s.tabs.selectedAgent == Some(id)
    case _ => false
  }

  ghost predicate Sends(s: App, e: Event, h: Host, rpc: Rpc) {
    SendsToStart(s, e, h, rpc) || SendsToAct(s, e, rpc) || SendsFromForm(s, e, rpc) || SendsAboutAgents(s, e, rpc)
  }

  // ------------------------------------------------------------ steps that only read

  lemma EmitCommands(s: App, rpc: Rpc)
    ensures CommandsOf(Emit(s, rpc).trace) == CommandsOf(s.trace) + if IsCommand(rpc) then [rpc] else []
  {
    hide Rpcs;
    hide Mon;
    assert (Rpcs(s.trace) + [rpc])[..|Rpcs(s.trace)|] == Rpcs(s.trace);
  }

  lemma NoteCommands(s: App, o: Obs)
    requires !o.Sent?
    ensures CommandsOf(Note(s, o).trace) == CommandsOf(s.trace)
  {
    hide Rpcs;
    hide Mon;
    assert Rpcs(s.trace) + [] == Rpcs(s.trace);
  }

  lemma ReloadReads(s: App, task: Id, h: Host)
    ensures CommandsOf(ReloadAgents(s, task, h).trace) == CommandsOf(s.trace)
  {
    hide CommandsOf;
    hide Quiet;
    EmitCommands(s, AgentList(task));
    assert CommandsOf(s.trace) + [] == CommandsOf(s.trace);
  }

  lemma RefreshReads(s: App, id: Id, h: Host)
    requires s.conn.session.Some?
    ensures CommandsOf(RefreshAgent(s, id, h).trace) == CommandsOf(s.trace)
  {
    hide CommandsOf;
    hide Mon;
    hide Rpcs;
    hide MergeAll;
    EmitCommands(s, AgentGet(id));
    var asked := Emit(s, AgentGet(id));
    EmitCommands(asked.(tabs := s.tabs.(agents := Answered(s.tabs.agents, id, h.agent(id)))), AgentContext(id));
    assert CommandsOf(s.trace) + [] == CommandsOf(s.trace);
  }

  lemma LoadReads(s: App, h: Host)
    ensures CommandsOf(LoadSelectedAgent(s, h).trace) == CommandsOf(s.trace)
  {
    hide CommandsOf;
    hide SelectedAgent;
    hide RefreshAgent;
    var agent := SelectedAgent(s.tabs);
    if agent.Some? && s.conn.session.Some? { RefreshReads(s, agent.value.id, h); }
  }

  lemma CanvasReads(s: App, task: Id, h: Host)
    ensures CommandsOf(ReloadCanvas(s, task, h).trace) == CommandsOf(s.trace)
  {
    hide CommandsOf;
    hide ReloadAgents;
    hide LoadSelectedAgent;
    var emptied := s.(dirs := Dirs(map[], {}));
    ReloadReads(emptied, task, h);
    LoadReads(ReloadAgents(emptied, task, h), h);
  }

  lemma OpenReads(s: App, id: Id, h: Host)
    ensures CommandsOf(OpenTask(s, id, h).trace) == CommandsOf(s.trace)
  {
    hide CommandsOf;
    hide ReloadCanvas;
    hide Opened;
    CanvasReads(s.(tabs := Opened(s.tabs, id)), id, h);
  }

  lemma CatalogReads(s: App, h: Host)
    ensures CommandsOf(RefreshCatalog(s, h).trace) == CommandsOf(s.trace)
  {
    hide CommandsOf;
    hide LoadedPresets;
    hide Quiet;
    EmitCommands(s, TasksCatalog);
    assert CommandsOf(s.trace) + [] == CommandsOf(s.trace);
  }

  lemma AddedReads(s: App, stub: AgentStub, h: Host)
    ensures CommandsOf(Added(s, stub, h).trace) == CommandsOf(s.trace)
  {
    hide CommandsOf;
    hide LoadSelectedAgent;
    hide Remember;
    var t := Remember(s.tabs.(selectedAgent := Some(stub.id)));
    LoadReads(s.(tabs := t.(agents := t.agents + [stub])), h);
  }

  // ------------------------------------------------------------ the command of an event

  function When(b: bool, rpc: Rpc): seq<Rpc> {
    if b then [rpc] else []
  }

  /** The command of a step about the connection or the tabs. */
  function MovingCommand(s: App, e: Event, h: Host): seq<Rpc> {
    match e
    case Discover =>
      if s.conn.pendingDiscover then When(h.pidFile, Connect)
      else When(IsOnline(s) && (s.conn.lastRpc.None? || s.conn.lastRpc.value + KEEPALIVE_MS <= s.now), Keepalive)
    case NewTask(title) =>
      When(IsOnline(s) && Trim(title) != "" && s.catalog.workspaceId.Some?
           && s.catalog.workspaceId.value in s.catalog.workspaces, TaskCreate(Trim(title)))
    case NewAgent(ready) =>
      if s.tabs.selectedTask.None? then [] else When(ready && IsOnline(s), AgentCreate(s.tabs.selectedTask.value))
    case NewChild(ready) =>
      var shown := SelectedAgent(s.tabs);
      if s.tabs.selectedTask.None? || shown.None? then []
      else When(ready && IsOnline(s) && s.conn.session.value.a2a,
                AgentCreateChild(s.tabs.selectedTask.value, shown.value.id))
    case _ => []
  }

  lemma DiscoverCommand(s: App, h: Host)
    ensures CommandsOf(TickDiscovery(s, h).trace) == CommandsOf(s.trace) + MovingCommand(s, Discover, h)
  {
    hide CommandsOf;
    hide ApplyDiscovery;
    hide Mon;
    hide Rpcs;
    EmitCommands(s, Keepalive);
    ConnectCommand(s.(conn := s.conn.(pendingDiscover := false)), h);
    assert CommandsOf(s.trace) + [] == CommandsOf(s.trace);
  }

  lemma ConnectCommand(s: App, h: Host)
    ensures CommandsOf(ApplyDiscovery(s, h).trace) == CommandsOf(s.trace) + When(h.pidFile, Connect)
  {
    hide CommandsOf;
    hide RefreshCatalog;
    hide ReloadCanvas;
    hide WsUrl;
    hide Mon;
    hide Rpcs;
    assert CommandsOf(s.trace) + [] == CommandsOf(s.trace);
    var asking := s.(conn := s.conn.(status := Connecting, token := None));
    EmitCommands(asking, Connect);
    if h.pidFile && h.connect.Some? {
      var session := h.connect.value;
      var online := Emit(asking, Connect).(conn := asking.conn.(
                        status := Online, session := Some(session), token := Some(session.token),
                        ws := WsUrl(session), lastRpc := Some(s.now)));
      CatalogReads(online, h);
      var catalog := RefreshCatalog(online, h);
      if catalog.tabs.selectedTask.Some? { CanvasReads(catalog, catalog.tabs.selectedTask.value, h); }
    }
  }

  lemma NewTaskCommand(s: App, title: string, h: Host)
    ensures CommandsOf(CreateTask(s, title, h).trace) == CommandsOf(s.trace) + MovingCommand(s, NewTask(title), h)
  {
    hide CommandsOf;
    hide Trim;
    hide RefreshCatalog;
    hide OpenTask;
    hide Framed;
    hide Mon;
    hide Rpcs;
    assert CommandsOf(s.trace) + [] == CommandsOf(s.trace);
    EmitCommands(s, TaskCreate(Trim(title)));
    var asked := Emit(s, TaskCreate(Trim(title)));
    var picked := asked.(catalog := asked.catalog.(newTaskPreset := None));
    CatalogReads(picked, h);
    if h.task.Some? { OpenReads(RefreshCatalog(picked, h), h.task.value, h); }
  }

  lemma NewAgentCommand(s: App, ready: bool, h: Host)
    ensures CommandsOf(CreateAgent(s, ready, h).trace) == CommandsOf(s.trace) + MovingCommand(s, NewAgent(ready), h)
  {
    hide CommandsOf;
    hide Added;
    hide Framed;
    hide Stays;
    hide Mon;
    hide Rpcs;
    assert CommandsOf(s.trace) + [] == CommandsOf(s.trace);
    if s.tabs.selectedTask.Some? {
      var rpc := AgentCreate(s.tabs.selectedTask.value);
      EmitCommands(s, rpc);
      if h.created.Some? { AddedReads(Emit(s, rpc), h.created.value, h); }
    }
  }

  lemma NewChildCommand(s: App, ready: bool, h: Host)
    ensures CommandsOf(CreateChild(s, ready, h).trace) == CommandsOf(s.trace) + MovingCommand(s, NewChild(ready), h)
  {
    hide CommandsOf;
    hide Added;
    hide SelectedAgent;
    hide Framed;
    hide Stays;
    hide Mon;
    hide Rpcs;
    assert CommandsOf(s.trace) + [] == CommandsOf(s.trace);
    if s.tabs.selectedTask.Some? && SelectedAgent(s.tabs).Some? {
      var rpc := AgentCreateChild(s.tabs.selectedTask.value, SelectedAgent(s.tabs).value.id);
      EmitCommands(s, rpc);
      if h.created.Some? { AddedReads(Emit(s, rpc), h.created.value, h); }
    }
  }

  lemma SwitchingReads(s: App, e: Event, h: Host)
    requires e.Open? || e.Switch? || e.Close? || e.Select? || e.Delete?
    ensures CommandsOf(TabStep(s, e, h).trace) == CommandsOf(s.trace)
  {
    hide CommandsOf;
    hide OpenTask;
    hide Closed;
    hide Remember;
    hide LoadSelectedAgent;
    hide AgentsForSelectedTask;
    hide Without;
    hide WithoutMentions;
    if e.Open? || e.Switch? {
      OpenReads(s, e.id, h);
    } else if e.Close? {
      var t := Closed(s.tabs, e.id);
      if t.open != [] { OpenReads(s.(tabs := t.(selectedTask := None)), Last(t.open), h); }
    } else if e.Select? {
      LoadReads(s.(tabs := Remember(s.tabs.(selectedAgent := Some(e.id)))), h);
    } else {
      var t := s.tabs.(agents := Without(s.tabs.agents, e.id));
      var left := s.(tabs := t, inbox := WithoutMentions(s.inbox, e.id));
      LoadReads(left.(tabs := Remember(t.(selectedAgent := FirstId(AgentsForSelectedTask(t))))), h);
    }
  }

  lemma ConnectionCommands(s: App, e: Event, h: Host)
    requires AboutConnection(e)
    ensures CommandsOf(ConnectionStep(s, e, h).trace) == CommandsOf(s.trace) + MovingCommand(s, e, h)
  {
    hide CommandsOf;
    hide MovingCommand;
    hide TickDiscovery;
    hide ReloadCanvas;
    if e.Discover? {
      DiscoverCommand(s, h);
    } else {
      NothingMoves(s, e, h);
      assert CommandsOf(s.trace) + [] == CommandsOf(s.trace);
      if s.tabs.selectedTask.Some? { CanvasReads(s, s.tabs.selectedTask.value, h); }
    }
  }

  lemma NothingMoves(s: App, e: Event, h: Host)
    requires !e.Discover? && !e.NewTask? && !e.NewAgent? && !e.NewChild?
    ensures MovingCommand(s, e, h) == []
  {
  }

  lemma TabCommands(s: App, e: Event, h: Host)
    requires AboutTabs(e)
    ensures CommandsOf(TabStep(s, e, h).trace) == CommandsOf(s.trace) + MovingCommand(s, e, h)
  {
    hide CommandsOf;
    hide MovingCommand;
    hide TabStep;
    if e.NewTask? || e.NewAgent? || e.NewChild? {
      CreationCommands(s, e, h);
    } else {
      SwitchingReads(s, e, h);
      NothingMoves(s, e, h);
      assert CommandsOf(s.trace) + [] == CommandsOf(s.trace);
    }
  }

  lemma CreationCommands(s: App, e: Event, h: Host)
    requires e.NewTask? || e.NewAgent? || e.NewChild?
    ensures CommandsOf(TabStep(s, e, h).trace) == CommandsOf(s.trace) + MovingCommand(s, e, h)
  {
    hide CommandsOf;
    hide MovingCommand;
    hide CreateTask;
    hide CreateAgent;
    hide CreateChild;
    if e.NewTask? {
      NewTaskCommand(s, e.title, h);
    } else if e.NewAgent? {
      NewAgentCommand(s, e.pickerReady, h);
    } else {
      NewChildCommand(s, e.pickerReady, h);
    }
  }

  /** The command of a step about talking, searching or a gate. */
  function ActingCommand(s: App, e: Event): seq<Rpc> {
    match e
    case Enter => Said(s, e)
    case Send => Said(s, e)
    case Steer => Said(s, e)
    case WorkerReply => if s.cancel.workers == [] then [] else [AgentCancel(s.cancel.workers[0])]
    case Respond(decision) =>
      var shown := SelectedAgent(s.tabs);
      if shown.None? || shown.value.id !in s.tabs.approvals then []
      else When(s.conn.session.Some?, ApprovalRespond(s.tabs.approvals[shown.value.id].approvalId, decision))
    case Confirm(g, picked) => When(MayConfirm(s, g, picked), Guarded(g))
    case _ => if Submits(s, e) then QueryOf(s) else []
  }

  function QueryOf(s: App): seq<Rpc> {
    var q := Trim(s.search.text);
    When(q != "" && !(s.search.ran && s.search.lastQ == Some(q))
         && s.conn.session.Some? && !s.conn.session.value.searchRejected, SearchQuery(q))
  }

  lemma TalkingCommand(s: App, e: Event, h: Host)
    requires Talks(e)
    ensures CommandsOf(Step(s, e, h).trace) == CommandsOf(s.trace) + ActingCommand(s, e)
  {
    hide Rpcs;
    hide At;
    hide Step;
    hide Said;
    hide Says;
    hide ActingCommand;
    TalkSays(s, e, h);
    SaidIsSays(s, e);
    SaysMessages(s, e);
    var said := Said(s, e);
    TalkIsSaid(s, e);
    AtIs(Step(s, e, h));
    WhereConcat(Rpcs(s.trace), said, IsCommand);
    WhereAll(said, IsCommand);
  }

  lemma TalkIsSaid(s: App, e: Event)
    requires Talks(e)
    ensures ActingCommand(s, e) == Said(s, e)
  {
    hide Said;
  }

  lemma AtIs(s: App)
    ensures At(s).rpcs == Rpcs(s.trace)
  {
    hide Rpcs;
  }

  lemma SubmitCommand(s: App, h: Host)
    ensures CommandsOf(SubmitSearch(s, h).trace) == CommandsOf(s.trace) + QueryOf(s)
  {
    hide CommandsOf;
    hide Framed;
    hide Stays;
    hide Trim;
    hide Mon;
    hide Rpcs;
    var q := Trim(s.search.text);
    assert CommandsOf(s.trace) + [] == CommandsOf(s.trace);
    var taken := s.(search := s.search.(editedAt := None));
    NoteCommands(taken.(search := taken.search.(items := [], ran := false, lastQ := None)), Cleared);
    var items := match h.query { case None => [] case Some(found) => found };
    EmitCommands(taken.(search := taken.search.(items := items, ran := true, lastQ := Some(q))), SearchQuery(q));
  }

  lemma {:induction false} CancelsSendNothing(s: App, dones: seq<CancelDone>)
    ensures CommandsOf(ApplyCancels(s, dones).trace) == CommandsOf(s.trace)
    ensures ApplyCancels(s, dones).search == s.search && ApplyCancels(s, dones).now == s.now
    ensures ApplyCancels(s, dones).conn == s.conn
  {
    hide CommandsOf;
    hide SetStatus;
    hide FindEither;
    hide Framed;
    hide Stays;
    hide Mon;
    hide Rpcs;
    if dones != [] {
      CancelsSendNothing(s, dones[..|dones| - 1]);
      var before, d := ApplyCancels(s, dones[..|dones| - 1]), Last(dones);
      CancelSendsNothing(before, d);
    }
  }

  lemma CancelSendsNothing(s: App, d: CancelDone)
    ensures CommandsOf(ApplyCancel(s, d).trace) == CommandsOf(s.trace)
    ensures ApplyCancel(s, d).search == s.search && ApplyCancel(s, d).now == s.now && ApplyCancel(s, d).conn == s.conn
  {
    hide SetStatus;
    hide FindEither;
    hide Framed;
    hide Stays;
    hide Mon;
    hide Rpcs;
    assert Rpcs(s.trace) + [] == Rpcs(s.trace);
  }

  lemma TickCommand(s: App, h: Host)
    ensures CommandsOf(TickRpc(s, h).trace) == CommandsOf(s.trace) + ActingCommand(s, Tick)
  {
    hide CommandsOf;
    hide ApplyCancels;
    hide SubmitSearch;
    hide QueryOf;
    hide Framed;
    hide Stays;
    hide Mon;
    hide Rpcs;
    var drained := s.(cancel := s.cancel.(results := []));
    CancelsSendNothing(drained, s.cancel.results);
    var applied := ApplyCancels(drained, s.cancel.results);
    assert CommandsOf(s.trace) + [] == CommandsOf(s.trace);
    NoteCommands(applied, Debounced(applied.now));
    SubmitCommand(Note(applied, Debounced(applied.now)), h);
    SameQuery(s, Note(applied, Debounced(applied.now)));
  }

  lemma SameQuery(s: App, r: App)
    requires r.search == s.search && r.conn == s.conn
    ensures QueryOf(r) == QueryOf(s)
  {
    hide Trim;
  }

  lemma OtherTalkCommands(s: App, e: Event, h: Host)
    requires AboutTalk(e) && !Talks(e)
    ensures CommandsOf(TalkStep(s, e, h).trace) == CommandsOf(s.trace) + ActingCommand(s, e)
  {
    hide CommandsOf;
    hide SelectedAgent;
    hide TickRpc;
    hide QueryOf;
    hide Framed;
    hide Stays;
    hide Mon;
    hide Rpcs;
    assert CommandsOf(s.trace) + [] == CommandsOf(s.trace);
    if e.Tick? {
      TickCommand(s, h);
    } else if e.WorkerReply? {
      if s.cancel.workers != [] { WorkerCommand(s, h); }
    } else if e.Stop? {
      StopSendsNothing(s);
    } else {
      RespondCommand(s, e.decision, h);
    }
  }

  lemma WorkerCommand(s: App, h: Host)
    requires s.cancel.workers != []
    ensures CommandsOf(WorkerDone(s, h).trace) == CommandsOf(s.trace) + [AgentCancel(s.cancel.workers[0])]
  {
    hide CommandsOf;
    hide Mon;
    hide Rpcs;
    var a := s.cancel.workers[0];
    EmitCommands(s.(cancel := s.cancel.(workers := s.cancel.workers[1..],
                                        results := s.cancel.results + [CancelDone(a, h.cancel)])), AgentCancel(a));
  }

  lemma StopSendsNothing(s: App)
    ensures CommandsOf(CancelRunningAgent(s).trace) == CommandsOf(s.trace)
  {
    hide SelectedAgent;
    hide Framed;
    hide Stays;
    hide Mon;
    hide Rpcs;
    assert Rpcs(s.trace) + [] == Rpcs(s.trace);
  }

  lemma RespondCommand(s: App, decision: string, h: Host)
    ensures CommandsOf(RespondApproval(s, decision, h).trace)
            == CommandsOf(s.trace) + ActingCommand(s, Respond(decision))
  {
    hide CommandsOf;
    hide SelectedAgent;
    hide Framed;
    hide Stays;
    hide Mon;
    hide Rpcs;
    assert CommandsOf(s.trace) + [] == CommandsOf(s.trace);
    var shown := SelectedAgent(s.tabs);
    if shown.Some? && shown.value.id in s.tabs.approvals {
      EmitCommands(s, ApprovalRespond(s.tabs.approvals[shown.value.id].approvalId, decision));
    }
  }

  lemma PickReads(s: App, index: nat, artifactTask: Option<Id>, h: Host)
    ensures CommandsOf(ActivateSearchResult(s, index, artifactTask, h).trace) == CommandsOf(s.trace)
  {
    hide CommandsOf;
    hide OpenTask;
    hide DismissSearch;
    hide Framed;
    DismissSendsNothing(s);
    if index < |s.search.items| {
      var id := s.search.items[index].id;
      OpenReads(s, id, h);
      DismissSendsNothing(OpenTask(s, id, h));
      DismissSendsNothing(s.(catalog := s.catalog.(workspaceId := Some(id))));
    }
    if artifactTask.Some? {
      OpenReads(s, artifactTask.value, h);
      DismissSendsNothing(OpenTask(s, artifactTask.value, h));
    }
  }

  lemma DismissSendsNothing(s: App)
    ensures CommandsOf(DismissSearch(s).trace) == CommandsOf(s.trace)
  {
    hide Rpcs;
    hide Mon;
    assert Rpcs(s.trace) + [] == Rpcs(s.trace);
  }

  lemma SearchCommands(s: App, e: Event, h: Host)
    requires AboutSearch(e)
    ensures CommandsOf(SearchStep(s, e, h).trace) == CommandsOf(s.trace) + ActingCommand(s, e)
  {
    hide CommandsOf;
    hide SubmitSearch;
    hide ActivateSearchResult;
    hide DismissSearch;
    hide QueryOf;
    hide Framed;
    hide Stays;
    hide Mon;
    hide Rpcs;
    assert CommandsOf(s.trace) + [] == CommandsOf(s.trace);
    if e.SearchEdit? {
      NoteCommands(s.(search := s.search.(text := e.text, editedAt := Some(s.now))), Edited(s.now));
    } else if e.SearchDismiss? {
      DismissSendsNothing(s);
    } else if e.SearchPick? {
      PickReads(s, e.index, e.artifactTask, h);
    } else {
      SubmitCommand(s, h);
      if e.SearchReturn? {
        PickReads(s, 0, e.artifactTask, h);
        PickReads(SubmitSearch(s, h), 0, e.artifactTask, h);
      }
    }
  }

  lemma AfterGuardedReads(s: App, g: Gate, h: Host)
    ensures CommandsOf(AfterGuarded(s, g, h).trace) == CommandsOf(s.trace)
  {
    hide CommandsOf;
    hide RefreshCatalog;
    hide ReloadAgents;
    hide LoadSelectedAgent;
    hide LoadedPresets;
    CatalogReads(s, h);
    var catalog := RefreshCatalog(s, h);
    if catalog.tabs.selectedTask.Some? {
      ReloadReads(catalog, catalog.tabs.selectedTask.value, h);
      LoadReads(ReloadAgents(catalog, catalog.tabs.selectedTask.value, h), h);
    }
  }

  lemma ConfirmIff(s: App, g: Gate, picked: bool)
    ensures MayConfirm(s, g, picked) <==>
            Has(s.gates, g) && Offered(s, g) && Prepared(s, g) && (g == SyncImport ==> picked)
  {
    hide Trim;
    if g == PresetDelete && Deletable(SelectedUserPreset(s.catalog)) {
      assert PickedPreset(s, s.catalog.newTaskPreset.value);
    }
  }

  lemma ConfirmCommand(s: App, g: Gate, picked: bool, h: Host)
    ensures CommandsOf(ConfirmGate(s, g, picked, h).trace)
            == CommandsOf(s.trace) + When(MayConfirm(s, g, picked), Guarded(g))
  {
    hide CommandsOf;
    hide AfterGuarded;
    hide MayConfirm;
    hide Offered;
    hide Prepared;
    hide Put;
    hide Mon;
    hide Rpcs;
    assert CommandsOf(s.trace) + [] == CommandsOf(s.trace);
    ConfirmIff(s, g, picked);
    var closed := Note(CloseGate(s, g), Confirmed(g));
    NoteCommands(CloseGate(s, g), Confirmed(g));
    EmitCommands(closed, Guarded(g));
    AfterGuardedReads(Emit(closed, Guarded(g)), g, h);
    SameOffer(s, closed, g);
  }

  lemma SameOffer(s: App, r: App, g: Gate)
    requires r.conn == s.conn && r.catalog == s.catalog
    ensures Offered(s, g) == Offered(r, g) && Prepared(s, g) == Prepared(r, g)
  {
    hide Trim;
  }

  lemma GateCommands(s: App, e: Event, h: Host)
    requires AboutGates(e)
    ensures CommandsOf(GateStep(s, e, h).trace) == CommandsOf(s.trace) + ActingCommand(s, e)
  {
    hide CommandsOf;
    hide ConfirmGate;
    hide RequestGate;
    hide WithdrawGate;
    hide MayConfirm;
    hide QueryOf;
    assert CommandsOf(s.trace) + [] == CommandsOf(s.trace);
    RequestsSendNothing(s, e.gate);
    if e.Confirm? { ConfirmCommand(s, e.gate, e.picked, h); }
  }

  lemma RequestsSendNothing(s: App, g: Gate)
    ensures CommandsOf(RequestGate(s, g).trace) == CommandsOf(WithdrawGate(s, g).trace) == CommandsOf(s.trace)
  {
    hide Offered;
    hide Prepared;
    hide Put;
    hide Mon;
    hide Rpcs;
    assert Rpcs(s.trace) + [] == Rpcs(s.trace);
  }

  /** The command of a form. */
  function FormCommand(s: App, e: Event): seq<Rpc> {
    var session := s.conn.session;
    match e
    case NewWorkspace(path) => When(IsOnline(s) && Trim(path) != "", WorkspaceAdd(Trim(path)))
    case Rename(id, title) => When(session.Some? && Trim(title) != "", TaskRename(id, Trim(title)))
    case Archive(id) => When(session.Some?, TaskArchive(id))
    case Export(anyTask) => When(session.Some? && session.value.sync && anyTask, SyncExport)
    case Push => When(session.Some? && session.value.syncPeer && Trim(s.catalog.peerUrl) != "", SyncPush)
    case NewPreset(valid) => When(session.Some? && session.value.presetCrud && valid, PresetCreate)
    case EditPreset(valid) =>
      var p := s.catalog.newTaskPreset;
      if p.None? then []
      else When(session.Some? && session.value.presetCrud && valid && PickedPreset(s, p.value), PresetUpdate(p.value))
    case _ => []
  }

  /** The command of a step about agents or directories. */
  function AgentCommand(s: App, e: Event): seq<Rpc> {
    var session := s.conn.session;
    match e
    case DeliverTo(target, text, live) =>
      var shown := SelectedAgent(s.tabs);
      if shown.None? || target.None? then []
      else When(session.Some? && session.value.a2a && live && shown.value.id != target.value
                && target.value in AgentIds(s.tabs.agents) && Trim(text) != "",
                A2aDeliver(shown.value.id, target.value, Trim(text)))
    case Toggle(path) =>
      When(path !in s.dirs.expanded && path !in s.dirs.children && s.catalog.workspaceId.Some? && session.Some?,
           FilesTree(path))
    case SwitchModel(ready) =>
      var shown := SelectedAgent(s.tabs);
      if shown.None? then []
      else When(session.Some? && session.value.model && shown.value.status != Running && ready,
                AgentSwitch(shown.value.id))
    case PickRole(changed) =>
      if s.tabs.selectedAgent.None? then []
      else When(changed && session.Some? && session.value.workspace, AgentUpdateRole(s.tabs.selectedAgent.value))
    case _ => []
  }

  lemma EditCommand(s: App, rpc: Rpc, h: Host)
    requires s.conn.session.Some? && (rpc.WorkspaceAdd? || rpc.TaskRename? || rpc.TaskArchive?)
    ensures CommandsOf(EditCatalog(s, rpc, h).trace) == CommandsOf(s.trace) + [rpc]
  {
    hide CommandsOf;
    hide RefreshCatalog;
    hide Quiet;
    EmitCommands(s, rpc);
    CatalogReads(Emit(s, rpc), h);
  }

  lemma CatalogFormCommands(s: App, e: Event, h: Host)
    requires e.NewWorkspace? || e.Rename? || e.Archive?
    ensures CommandsOf(FormStep(s, e, h).trace) == CommandsOf(s.trace) + FormCommand(s, e)
  {
    hide CommandsOf;
    hide EditCatalog;
    hide FormFrame;
    hide Trim;
    assert CommandsOf(s.trace) + [] == CommandsOf(s.trace);
    if s.conn.session.Some? {
      if e.NewWorkspace? {
        EditCommand(s, WorkspaceAdd(Trim(e.path)), h);
      } else if e.Rename? {
        EditCommand(s, TaskRename(e.id, Trim(e.title)), h);
      } else {
        EditCommand(s, TaskArchive(e.id), h);
      }
    }
  }

  lemma SyncFormCommands(s: App, e: Event, h: Host)
    requires e.Export? || e.Push?
    ensures CommandsOf(FormStep(s, e, h).trace) == CommandsOf(s.trace) + FormCommand(s, e)
  {
    hide CommandsOf;
    hide FormFrame;
    hide Put;
    hide Trim;
    hide Mon;
    hide Rpcs;
    assert CommandsOf(s.trace) + [] == CommandsOf(s.trace);
    EmitCommands(s, SyncExport);
    EmitCommands(s, SyncPush);
  }

  lemma NewPresetCommand(s: App, valid: bool, h: Host)
    ensures CommandsOf(CreatePreset(s, valid, h).trace) == CommandsOf(s.trace) + FormCommand(s, NewPreset(valid))
  {
    hide CommandsOf;
    hide FormFrame;
    hide LoadedPresets;
    hide PresetPicked;
    hide Put;
    hide Trim;
    hide Mon;
    hide Rpcs;
    assert CommandsOf(s.trace) + [] == CommandsOf(s.trace);
    EmitCommands(s, PresetCreate);
  }

  lemma EditPresetCommand(s: App, valid: bool, h: Host)
    ensures CommandsOf(SavePreset(s, valid, h).trace) == CommandsOf(s.trace) + FormCommand(s, EditPreset(valid))
  {
    hide CommandsOf;
    hide FormFrame;
    hide LoadedPresets;
    hide SelectedUserPreset;
    hide Deletable;
    hide PickedPreset;
    hide Put;
    hide Mon;
    hide Rpcs;
    assert CommandsOf(s.trace) + [] == CommandsOf(s.trace);
    PickedIff(s);
    if s.catalog.newTaskPreset.Some? { EmitCommands(s, PresetUpdate(s.catalog.newTaskPreset.value)); }
  }

  lemma PickedIff(s: App)
    ensures var p := SelectedUserPreset(s.catalog);
            if s.catalog.newTaskPreset.None? then !Deletable(p)
            else (Deletable(p) <==> PickedPreset(s, s.catalog.newTaskPreset.value))
                 && (Deletable(p) ==> p == s.catalog.newTaskPreset)
  {
    hide Trim;
  }

  lemma PresetFormCommands(s: App, e: Event, h: Host)
    requires e.NewPreset? || e.EditPreset?
    ensures CommandsOf(FormStep(s, e, h).trace) == CommandsOf(s.trace) + FormCommand(s, e)
  {
    hide CommandsOf;
    hide FormFrame;
    hide FormCommand;
    hide CreatePreset;
    hide SavePreset;
    if e.NewPreset? { NewPresetCommand(s, e.valid, h); } else { EditPresetCommand(s, e.valid, h); }
  }

  lemma FormCommands(s: App, e: Event, h: Host)
    requires AboutForms(e)
    ensures CommandsOf(FormStep(s, e, h).trace) == CommandsOf(s.trace) + FormCommand(s, e)
  {
    hide CommandsOf;
    hide FormStep;
    hide FormCommand;
    if e.NewWorkspace? || e.Rename? || e.Archive? {
      CatalogFormCommands(s, e, h);
    } else if e.Export? || e.Push? {
      SyncFormCommands(s, e, h);
    } else {
      PresetFormCommands(s, e, h);
    }
  }

  lemma FoundIff(agents: seq<AgentStub>, id: Id)
    ensures Find(agents, id) < |agents| <==> id in AgentIds(agents)
  {
    if id in AgentIds(agents) { var k :| 0 <= k < |agents| && AgentIds(agents)[k] == id; }
    if Find(agents, id) < |agents| { assert AgentIds(agents)[Find(agents, id)] == id; }
  }

  lemma ReceiptSends(s: App, from: Id, text: string, h: Host)
    ensures AfterDelivery(s, from, text, h).trace == s.trace
  {
  }

  lemma DeliverCommand(s: App, target: Option<Id>, text: string, live: bool, h: Host)
    ensures CommandsOf(Deliver(s, target, text, live, h).trace)
            == CommandsOf(s.trace) + AgentCommand(s, DeliverTo(target, text, live))
  {
    hide CommandsOf;
    hide SelectedAgent;
    hide Trim;
    hide Find;
    hide Framed;
    hide Stays;
    hide Mon;
    hide Rpcs;
    assert CommandsOf(s.trace) + [] == CommandsOf(s.trace);
    hide AfterDelivery;
    var shown := SelectedAgent(s.tabs);
    if shown.Some? && target.Some? {
      FoundIff(s.tabs.agents, target.value);
      var rpc := A2aDeliver(shown.value.id, target.value, Trim(text));
      EmitCommands(s, rpc);
      ReceiptSends(Emit(s, rpc), shown.value.id, Trim(text), h);
    }
  }

  lemma SwitchModelCommand(s: App, ready: bool, h: Host)
    ensures CommandsOf(SwitchAgent(s, ready, h).trace) == CommandsOf(s.trace) + AgentCommand(s, SwitchModel(ready))
  {
    hide CommandsOf;
    hide SelectedAgent;
    hide AskSwitch;
    hide Framed;
    hide Stays;
    assert CommandsOf(s.trace) + [] == CommandsOf(s.trace);
    var shown := SelectedAgent(s.tabs);
    if shown.Some? && s.conn.session.Some? { AskSwitchCommand(s, shown.value.id, h); }
  }

  lemma AskSwitchCommand(s: App, id: Id, h: Host)
    requires s.conn.session.Some?
    ensures CommandsOf(AskSwitch(s, id, h).trace) == CommandsOf(s.trace) + [AgentSwitch(id)]
  {
    hide CommandsOf;
    hide RefreshAgent;
    hide Framed;
    EmitCommands(s, AgentSwitch(id));
    if h.switched(id).Some? {
      var asked := Emit(s, AgentSwitch(id));
      RefreshReads(asked.(tabs := asked.tabs.(agents := Answered(asked.tabs.agents, id, h.switched(id)))), id, h);
    }
  }

  lemma RoleCommand(s: App, changed: bool, h: Host)
    ensures CommandsOf(UpdateRole(s, changed, h).trace) == CommandsOf(s.trace) + AgentCommand(s, PickRole(changed))
  {
    hide CommandsOf;
    hide Answered;
    hide Framed;
    hide Stays;
    hide Mon;
    hide Rpcs;
    assert CommandsOf(s.trace) + [] == CommandsOf(s.trace);
    if s.tabs.selectedAgent.Some? {
      EmitCommands(s, AgentUpdateRole(s.tabs.selectedAgent.value));
    }
  }

  lemma ToggleCommand(s: App, path: string, h: Host)
    ensures CommandsOf(ToggleDir(s, path, h).trace) == CommandsOf(s.trace) + AgentCommand(s, Toggle(path))
  {
    hide CommandsOf;
    hide Framed;
    hide Stays;
    hide Mon;
    hide Rpcs;
    assert CommandsOf(s.trace) + [] == CommandsOf(s.trace);
    EmitCommands(s, FilesTree(path));
  }

  lemma AgentCommands(s: App, e: Event, h: Host)
    requires AboutAgents(e)
    ensures CommandsOf(AgentsStep(s, e, h).trace) == CommandsOf(s.trace) + AgentCommand(s, e)
  {
    hide CommandsOf;
    hide Deliver;
    hide SwitchAgent;
    hide UpdateRole;
    hide ToggleDir;
    hide Framed;
    hide Stays;
    assert CommandsOf(s.trace) + [] == CommandsOf(s.trace);
    if e.DeliverTo? {
      DeliverCommand(s, e.target, e.text, e.inboxLive, h);
    } else if e.SwitchModel? {
      SwitchModelCommand(s, e.ready, h);
    } else if e.PickRole? {
      RoleCommand(s, e.changed, h);
    } else if e.Toggle? {
      ToggleCommand(s, e.path, h);
    } else {
      assert AgentCommand(s, e) == [];
    }
  }

  // ------------------------------------------------------------ every step, every run

  /** The command of an event, if it has one. */
  function CommandOf(s: App, e: Event, h: Host): seq<Rpc> {
    match FamilyOf(e)
    case OfConnection => MovingCommand(s, e, h)
    case OfTabs => MovingCommand(s, e, h)
    case OfTalk => ActingCommand(s, e)
    case OfSearch => ActingCommand(s, e)
    case OfGates => ActingCommand(s, e)
    case OfAgents => AgentCommand(s, e)
    case OfForms => FormCommand(s, e)
    case OfDrafts => []
  }

  lemma StepHasCommand(s: App, e: Event, h: Host)
    ensures CommandsOf(Step(s, e, h).trace) == CommandsOf(s.trace) + CommandOf(s, e, h)
  {
    hide CommandsOf;
    hide FamilyOf;
    hide Step;
    hide MovingCommand;
    hide ActingCommand;
    hide FormCommand;
    hide AgentCommand;
    if AboutConnection(e) || AboutTabs(e) {
      StartingCommands(s, e, h);
    } else if AboutTalk(e) || AboutSearch(e) || AboutGates(e) {
      ActingCommands(s, e, h);
    } else {
      OtherCommands(s, e, h);
    }
  }

  lemma StartingCommands(s: App, e: Event, h: Host)
    requires AboutConnection(e) || AboutTabs(e)
    ensures CommandsOf(Step(s, e, h).trace) == CommandsOf(s.trace) + MovingCommand(s, e, h)
  {
    hide CommandsOf;
    hide FamilyOf;
    hide MovingCommand;
    hide ConnectionStep;
    hide TabStep;
    if AboutConnection(e) { ConnectionCommands(s, e, h); } else { TabCommands(s, e, h); }
  }

  lemma OtherCommands(s: App, e: Event, h: Host)
    requires AboutAgents(e) || AboutForms(e) || FamilyOf(e) == OfDrafts
    ensures CommandsOf(Step(s, e, h).trace) == CommandsOf(s.trace) + CommandOf(s, e, h)
  {
    hide CommandsOf;
    hide FamilyOf;
    hide FormCommand;
    hide AgentCommand;
    hide AgentsStep;
    hide FormStep;
    hide DraftStep;
    if AboutAgents(e) {
      AgentCommands(s, e, h);
    } else if AboutForms(e) {
      FormCommands(s, e, h);
    } else {
      DraftsSendNothing(s, e);
      assert CommandsOf(s.trace) + [] == CommandsOf(s.trace);
    }
  }

  lemma ActingCommands(s: App, e: Event, h: Host)
    requires AboutTalk(e) || AboutSearch(e) || AboutGates(e)
    ensures CommandsOf(Step(s, e, h).trace) == CommandsOf(s.trace) + ActingCommand(s, e)
  {
    hide CommandsOf;
    hide FamilyOf;
    hide ActingCommand;
    hide TalkStep;
    hide SearchStep;
    hide GateStep;
    if AboutTalk(e) {
      if Talks(e) { TalkingCommand(s, e, h); } else { OtherTalkCommands(s, e, h); }
    } else if AboutSearch(e) {
      SearchCommands(s, e, h);
    } else {
      GateCommands(s, e, h);
    }
  }

  lemma DraftsSendNothing(s: App, e: Event)
    ensures DraftStep(s, e).trace == s.trace
  {
    hide PresetPicked;
  }

  lemma MovingIff(s: App, e: Event, h: Host, rpc: Rpc)
    ensures |MovingCommand(s, e, h)| <= 1 && (rpc in MovingCommand(s, e, h) <==> SendsToStart(s, e, h, rpc))
  {
    hide Trim;
    hide SelectedAgent;
  }

  lemma ActingIff(s: App, e: Event, rpc: Rpc)
    ensures |ActingCommand(s, e)| <= 1 && (rpc in ActingCommand(s, e) <==> SendsToAct(s, e, rpc))
  {
    hide ActingCommand;
    hide SendsToAct;
    if Talks(e) {
      TalkingIff(s, e, rpc);
    } else if e.Respond? {
      RespondIff(s, e, rpc);
    } else {
      QuietActingIff(s, e, rpc);
    }
  }

  lemma TalkingIff(s: App, e: Event, rpc: Rpc)
    requires Talks(e)
    ensures |ActingCommand(s, e)| <= 1 && (rpc in ActingCommand(s, e) <==> SendsToAct(s, e, rpc))
  {
    hide Trim;
    hide SelectedAgent;
    hide ActingCommand;
    hide Says;
    hide Said;
    hide MayConfirm;
    TalkIsSaid(s, e);
    SaidIsSays(s, e);
    SaysMessages(s, e);
  }

  lemma RespondIff(s: App, e: Event, rpc: Rpc)
    requires e.Respond?
    ensures |ActingCommand(s, e)| <= 1 && (rpc in ActingCommand(s, e) <==> SendsToAct(s, e, rpc))
  {
    hide Trim;
    hide SelectedAgent;
    hide Says;
    SilentOtherwise(s, e);
  }

  lemma QuietActingIff(s: App, e: Event, rpc: Rpc)
    requires !Talks(e) && !e.Respond?
    ensures |ActingCommand(s, e)| <= 1 && (rpc in ActingCommand(s, e) <==> SendsToAct(s, e, rpc))
  {
    hide ActingCommand;
    hide SendsToAct;
    if e.Confirm? || e.WorkerReply? { ConfirmingIff(s, e, rpc); } else { SubmittingIff(s, e, rpc); }
  }

  lemma ConfirmingIff(s: App, e: Event, rpc: Rpc)
    requires e.Confirm? || e.WorkerReply?
    ensures |ActingCommand(s, e)| <= 1 && (rpc in ActingCommand(s, e) <==> SendsToAct(s, e, rpc))
  {
    hide Trim;
    hide Shown;
    hide SelectedAgent;
    hide Says;
    hide MayConfirm;
    SilentOtherwise(s, e);
  }

  lemma QueryIff(s: App, rpc: Rpc)
    ensures |QueryOf(s)| <= 1 && (rpc in QueryOf(s) <==> rpc.SearchQuery? && Asks(s, rpc.q))
  {
    hide Trim;
  }

  lemma SubmittingIff(s: App, e: Event, rpc: Rpc)
    requires !Talks(e) && !e.Respond? && !e.Confirm? && !e.WorkerReply?
    ensures |ActingCommand(s, e)| <= 1 && (rpc in ActingCommand(s, e) <==> SendsToAct(s, e, rpc))
  {
    hide Asks;
    hide QueryOf;
    hide Shown;
    hide Submits;
    hide SelectedAgent;
    hide Says;
    hide Said;
    hide MayConfirm;
    SilentOtherwise(s, e);
    QueryIff(s, rpc);
  }

  lemma FormIff(s: App, e: Event, rpc: Rpc)
    ensures |FormCommand(s, e)| <= 1 && (rpc in FormCommand(s, e) <==> SendsFromForm(s, e, rpc))
  {
    hide Trim;
    hide IsOnline;
  }

  lemma AgentIff(s: App, e: Event, rpc: Rpc)
    ensures |AgentCommand(s, e)| <= 1 && (rpc in AgentCommand(s, e) <==> SendsAboutAgents(s, e, rpc))
  {
    hide Trim;
    hide SelectedAgent;
  }

  lemma OtherwiseNoForm(s: App, e: Event)
    ensures !AboutForms(e) ==> FormCommand(s, e) == []
    ensures !AboutAgents(e) ==> AgentCommand(s, e) == []
  {
    hide When;
    hide Trim;
    hide SelectedAgent;
  }

  lemma OtherwiseNoStart(s: App, e: Event, h: Host)
    ensures !AboutConnection(e) && !AboutTabs(e) ==> MovingCommand(s, e, h) == []
  {
    if !AboutConnection(e) && !AboutTabs(e) { NothingMoves(s, e, h); }
  }

  lemma OtherwiseNoAct(s: App, e: Event)
    ensures !AboutTalk(e) && !AboutSearch(e) && !AboutGates(e) ==> ActingCommand(s, e) == []
  {
    hide QueryOf;
    hide Said;
    hide MayConfirm;
    hide SelectedAgent;
  }

  lemma CommandIff(s: App, e: Event, h: Host, rpc: Rpc)
    ensures |CommandOf(s, e, h)| <= 1 && (rpc in CommandOf(s, e, h) <==> Sends(s, e, h, rpc))
  {
    hide FamilyOf;
    hide MovingCommand;
    hide ActingCommand;
    hide FormCommand;
    hide AgentCommand;
    hide SendsToStart;
    hide SendsToAct;
    hide SendsFromForm;
    hide SendsAboutAgents;
    MovingIff(s, e, h, rpc);
    ActingIff(s, e, rpc);
    FormIff(s, e, rpc);
    AgentIff(s, e, rpc);
    OtherwiseNoForm(s, e);
    OtherwiseNoStart(s, e, h);
    OtherwiseNoAct(s, e);
  }

  /** Every step sends at most one command to the host, and exactly the one its event asks for. */
  lemma StepSends(s: App, e: Event, h: Host) returns (sent: seq<Rpc>)
    ensures CommandsOf(Step(s, e, h).trace) == CommandsOf(s.trace) + sent
    ensures |sent| <= 1 && forall rpc :: rpc in sent <==> Sends(s, e, h, rpc)
  {
    hide CommandsOf;
    hide Step;
    hide CommandOf;
    hide Sends;
    sent := CommandOf(s, e, h);
    StepHasCommand(s, e, h);
    forall rpc ensures |sent| <= 1 && (rpc in sent <==> Sends(s, e, h, rpc)) { CommandIff(s, e, h, rpc); }
    assert |sent| <= 1 by { CommandIff(s, e, h, Connect); }
  }

  /** In every run the commands sent match, one to one and in order, the events that ask for them. */
  lemma {:induction false} CommandsAreAskedFor(events: seq<(Event, Host)>) returns (at: seq<nat>)
    ensures |at| == |CommandsOf(Run(Initial, events).trace)|
    ensures forall i, j :: 0 <= i < j < |at| ==> at[i] < at[j]
    ensures forall i :: 0 <= i < |at| ==>
              && at[i] < |events|
              && Sends(Before(events, at[i]), events[at[i]].0, events[at[i]].1,
                       CommandsOf(Run(Initial, events).trace)[i])
    ensures forall k, rpc :: 0 <= k < |events| && Sends(Before(events, k), events[k].0, events[k].1, rpc) ==> k in at
  {
    hide Sends;
    hide Step;
    hide CommandsOf;
    if events == [] {
      at := [];
      NothingSentYet();
    } else {
      var n := |events| - 1;
      var front := events[..n];
      at := CommandsAreAskedFor(front);
      assert forall k :: 0 <= k <= n ==> front[..k] == events[..k];
      assert forall k :: 0 <= k < n ==> front[k] == events[k];
      assert front == events[..n] && Before(events, n) == Run(Initial, front);
      var sent := StepSends(Before(events, n), events[n].0, events[n].1);
      var earlier := at;
      if sent != [] {
        assert sent[0] in sent;
        at := at + [n];
      }
      forall k, rpc | 0 <= k < |events| && Sends(Before(events, k), events[k].0, events[k].1, rpc) ensures k in at {
        if k < n {
          assert Sends(Before(front, k), front[k].0, front[k].1, rpc) && k in earlier;
        } else {
          assert rpc in sent;
        }
      }
    }
  }

  lemma NothingSentYet()
    ensures CommandsOf(Run(Initial, []).trace) == []
  {
  }
}
