/** What a run asks the host, what of the answers and events reaches the inbox, and whom it
    talks to. */
module Exchange {
  import opened Basics
  import opened Text
  import opened Agents
  import opened A2a
  import opened Traces
  import opened AppModel
  import opened AppRuns
  import opened RunFacts

  // ------------------------------------------------------------ asking and hearing

  /** The RPCs sent so far and the inbox. */
  datatype Desk = Desk(rpcs: seq<Rpc>, inbox: seq<InboxItem>)

  function At(s: App): Desk {
    Desk(Rpcs(s.trace), s.inbox)
  }

  predicate IsMessage(rpc: Rpc) {
    rpc.AgentSend? || rpc.AgentSteer?
  }

  /** What the host's answer to one RPC has for the inbox. */
  function Heard(rpc: Rpc, h: Host): seq<InboxItem> {
    match rpc
    case AgentContext(a) => if h.context(a).Some? then Announced(a, h.context(a).value) else []
    case A2aDeliver(from, _, content) =>
      if h.delivered.Some? then [InboxItem(from, h.delivered.value.0, h.delivered.value.1, content)] else []
    case _ => []
  }

  function AllHeard(rpcs: seq<Rpc>, h: Host): seq<InboxItem> {
    if rpcs == [] then [] else AllHeard(rpcs[..|rpcs| - 1], h) + Heard(Last(rpcs), h)
  }

  /** More RPCs, none of them a message to an agent, and every answer merged into the inbox. */
  ghost predicate Follows(d: Desk, r: Desk, h: Host) {
    && d.rpcs <= r.rpcs
    && r.inbox == MergeAll(d.inbox, AllHeard(r.rpcs[|d.rpcs|..], h))
    && forall rpc :: rpc in r.rpcs[|d.rpcs|..] ==> !IsMessage(rpc)
  }

  lemma {:induction false} MergeAllTwice(items: seq<InboxItem>, a: seq<InboxItem>, b: seq<InboxItem>)
    ensures MergeAll(items, a + b) == MergeAll(MergeAll(items, a), b)
  {
    if b == [] {
      assert a + b == a;
    } else {
      assert (a + b)[..|a + b| - 1] == a + b[..|b| - 1];
      MergeAllTwice(items, a, b[..|b| - 1]);
    }
  }

  lemma {:induction false} AllHeardTwice(a: seq<Rpc>, b: seq<Rpc>, h: Host)
    ensures AllHeard(a + b, h) == AllHeard(a, h) + AllHeard(b, h)
  {
    hide Heard;
    if b == [] {
      assert a + b == a;
    } else {
      assert (a + b)[..|a + b| - 1] == a + b[..|b| - 1];
      AllHeardTwice(a, b[..|b| - 1], h);
    }
  }

  lemma FollowsItself(d: Desk, h: Host)
    ensures Follows(d, d, h)
  {
  }

  lemma FollowsOn(a: Desk, b: Desk, c: Desk, h: Host)
    requires Follows(a, b, h) && Follows(b, c, h)
    ensures Follows(a, c, h)
  {
    hide MergeAll;
    hide AllHeard;
    hide IsMessage;
    var first, then_ := b.rpcs[|a.rpcs|..], c.rpcs[|b.rpcs|..];
    assert c.rpcs[|a.rpcs|..] == first + then_;
    AllHeardTwice(first, then_, h);
    MergeAllTwice(a.inbox, AllHeard(first, h), AllHeard(then_, h));
  }

  /** One RPC, its answer merged. */
  lemma AskOne(d: Desk, rpc: Rpc, h: Host)
    requires !IsMessage(rpc)
    ensures Follows(d, Desk(d.rpcs + [rpc], MergeAll(d.inbox, Heard(rpc, h))), h)
  {
    hide MergeAll;
    hide Heard;
    var asked := (d.rpcs + [rpc])[|d.rpcs|..];
    assert asked == [rpc] && AllHeard([rpc][..0], h) == [];
    assert AllHeard([rpc], h) == [] + Heard(rpc, h) == Heard(rpc, h);
  }

  /** An RPC whose answer has nothing for the inbox. */
  lemma Asks(s: App, rpc: Rpc, h: Host)
    requires !IsMessage(rpc) && Heard(rpc, h) == []
    ensures Follows(At(s), At(s), h)
    ensures Follows(At(s), At(Emit(s, rpc)), h)
  {
    hide Rpcs;
    hide Mon;
    hide Follows;
    FollowsItself(At(s), h);
    AskOne(At(s), rpc, h);
  }

  // ------------------------------------------------------------ loading

  lemma ReloadAgentsFollows(s: App, task: Id, h: Host)
    ensures Follows(At(s), At(ReloadAgents(s, task, h)), h)
  {
    hide Rpcs;
    hide Mon;
    hide Follows;
    Asks(s, AgentList(task), h);
  }

  lemma LoadContextFollows(s: App, id: Id, h: Host)
    ensures Follows(At(s), At(LoadContext(s, id, h)), h)
  {
    hide Rpcs;
    hide Mon;
    hide Follows;
    AskOne(At(s), AgentContext(id), h);
  }

  lemma RefreshAgentFollows(s: App, id: Id, h: Host)
    requires s.conn.session.Some?
    ensures Follows(At(s), At(RefreshAgent(s, id, h)), h)
  {
    hide Rpcs;
    hide Mon;
    hide Follows;
    hide LoadContext;
    Asks(s, AgentGet(id), h);
    var asked := Emit(s, AgentGet(id));
    var next := asked.(tabs := s.tabs.(agents := Answered(s.tabs.agents, id, h.agent(id))));
    LoadContextFollows(next, id, h);
    FollowsOn(At(s), At(next), At(LoadContext(next, id, h)), h);
  }

  lemma LoadFollows(s: App, h: Host)
    ensures Follows(At(s), At(LoadSelectedAgent(s, h)), h)
  {
    hide Follows;
    hide SelectedAgent;
    hide RefreshAgent;
    FollowsItself(At(s), h);
    var agent := SelectedAgent(s.tabs);
    if agent.Some? && s.conn.session.Some? { RefreshAgentFollows(s, agent.value.id, h); }
  }

  lemma CanvasFollows(s: App, task: Id, h: Host)
    ensures Follows(At(s), At(ReloadCanvas(s, task, h)), h)
  {
    hide Follows;
    hide ReloadAgents;
    hide LoadSelectedAgent;
    var emptied := s.(dirs := Dirs(map[], {}));
    ReloadAgentsFollows(emptied, task, h);
    var listed := ReloadAgents(emptied, task, h);
    LoadFollows(listed, h);
    FollowsOn(At(s), At(listed), At(LoadSelectedAgent(listed, h)), h);
  }

  lemma OpenFollows(s: App, id: Id, h: Host)
    ensures Follows(At(s), At(OpenTask(s, id, h)), h)
  {
    hide Follows;
    hide ReloadCanvas;
    hide Opened;
    CanvasFollows(s.(tabs := Opened(s.tabs, id)), id, h);
  }

  lemma CatalogFollows(s: App, h: Host)
    ensures Follows(At(s), At(RefreshCatalog(s, h)), h)
  {
    hide Rpcs;
    hide Mon;
    hide Follows;
    hide LoadedPresets;
    Asks(s, TasksCatalog, h);
  }

  // ------------------------------------------------------------ connection

  lemma DiscoveryFollows(s: App, h: Host)
    ensures Follows(At(s), At(ApplyDiscovery(s, h)), h)
  {
    hide Rpcs;
    hide Mon;
    hide Follows;
    hide RefreshCatalog;
    hide ReloadCanvas;
    hide WsUrl;
    Asks(s, Connect, h);
    if h.pidFile && h.connect.Some? { ConnectedFollows(s, h); }
  }

  /** After a session is found the catalog is read, and the canvas if it is shown. */
  lemma ConnectedFollows(s: App, h: Host)
    requires h.pidFile && h.connect.Some?
    ensures Follows(At(s), At(ApplyDiscovery(s, h)), h)
  {
    hide Rpcs;
    hide Mon;
    hide Follows;
    hide RefreshCatalog;
    hide ReloadCanvas;
    hide WsUrl;
    var asked := Emit(s.(conn := s.conn.(status := Connecting, token := None)), Connect);
    var session := h.connect.value;
    var online := asked.(conn := asked.conn.(status := Online, session := Some(session), token := Some(session.token),
                                             ws := WsUrl(session), lastRpc := Some(s.now)));
    Asks(s, Connect, h);
    CatalogFollows(online, h);
    var catalog := RefreshCatalog(online, h);
    FollowsOn(At(s), At(online), At(catalog), h);
    if catalog.tabs.screen == Canvas && catalog.tabs.selectedTask.Some? {
      CanvasFollows(catalog, catalog.tabs.selectedTask.value, h);
      FollowsOn(At(s), At(catalog), At(ReloadCanvas(catalog, catalog.tabs.selectedTask.value, h)), h);
    }
  }

  lemma TickDiscoveryFollows(s: App, h: Host)
    ensures Follows(At(s), At(TickDiscovery(s, h)), h)
  {
    hide Rpcs;
    hide Mon;
    hide Follows;
    hide ApplyDiscovery;
    Asks(s, Keepalive, h);
    DiscoveryFollows(s.(conn := s.conn.(pendingDiscover := false)), h);
  }

  lemma ConnectionFollows(s: App, e: Event, h: Host)
    requires AboutConnection(e)
    ensures Follows(At(s), At(ConnectionStep(s, e, h)), h)
  {
    hide Rpcs;
    hide Follows;
    hide TickDiscovery;
    hide ReloadCanvas;
    FollowsItself(At(s), h);
    TickDiscoveryFollows(s, h);
    if s.tabs.selectedTask.Some? { CanvasFollows(s, s.tabs.selectedTask.value, h); }
  }

  // ------------------------------------------------------------ tabs

  lemma CloseFollows(s: App, id: Id, h: Host)
    ensures Follows(At(s), At(CloseTaskTab(s, id, h)), h)
  {
    hide Follows;
    hide OpenTask;
    hide Closed;
    FollowsItself(At(s), h);
    var t := Closed(s.tabs, id);
    if t.open != [] { OpenFollows(s.(tabs := t.(selectedTask := None)), Last(t.open), h); }
  }

  lemma SelectFollows(s: App, id: Id, h: Host)
    ensures Follows(At(s), At(SelectAgent(s, id, h)), h)
  {
    hide Follows;
    hide LoadSelectedAgent;
    hide Remember;
    FollowsItself(At(s), h);
    LoadFollows(s.(tabs := Remember(s.tabs.(selectedAgent := Some(id)))), h);
  }

  lemma NewTaskFollows(s: App, title: string, h: Host)
    ensures Follows(At(s), At(CreateTask(s, title, h)), h)
  {
    hide Rpcs;
    hide Mon;
    hide Follows;
    hide Trim;
    hide RefreshCatalog;
    hide OpenTask;
    Asks(s, TaskCreate(Trim(title)), h);
    if h.task.Some? {
      var asked := Emit(s, TaskCreate(Trim(title)));
      var picked := asked.(catalog := asked.catalog.(newTaskPreset := None));
      CatalogFollows(picked, h);
      FollowsOn(At(s), At(picked), At(RefreshCatalog(picked, h)), h);
      OpenFollows(RefreshCatalog(picked, h), h.task.value, h);
      FollowsOn(At(s), At(RefreshCatalog(picked, h)), At(OpenTask(RefreshCatalog(picked, h), h.task.value, h)), h);
    }
  }

  lemma AddedFollows(s: App, stub: AgentStub, h: Host)
    ensures Follows(At(s), At(Added(s, stub, h)), h)
  {
    hide Follows;
    hide LoadSelectedAgent;
    hide Remember;
    var t := Remember(s.tabs.(selectedAgent := Some(stub.id)));
    LoadFollows(s.(tabs := t.(agents := t.agents + [stub])), h);
  }

  lemma CreatedFollows(s: App, rpc: Rpc, h: Host)
    requires !IsMessage(rpc) && Heard(rpc, h) == [] && h.created.Some?
    ensures Follows(At(s), At(Added(Emit(s, rpc), h.created.value, h)), h)
  {
    hide Rpcs;
    hide Mon;
    hide Follows;
    hide Added;
    Asks(s, rpc, h);
    var asked := Emit(s, rpc);
    AddedFollows(asked, h.created.value, h);
    FollowsOn(At(s), At(asked), At(Added(asked, h.created.value, h)), h);
  }

  lemma NewAgentFollows(s: App, ready: bool, h: Host)
    ensures Follows(At(s), At(CreateAgent(s, ready, h)), h)
  {
    hide Rpcs;
    hide Mon;
    hide Follows;
    hide Added;
    FollowsItself(At(s), h);
    if s.tabs.selectedTask.Some? {
      Asks(s, AgentCreate(s.tabs.selectedTask.value), h);
      if h.created.Some? { CreatedFollows(s, AgentCreate(s.tabs.selectedTask.value), h); }
    }
  }

  lemma NewChildFollows(s: App, ready: bool, h: Host)
    ensures Follows(At(s), At(CreateChild(s, ready, h)), h)
  {
    hide Rpcs;
    hide Mon;
    hide Follows;
    hide Added;
    hide SelectedAgent;
    FollowsItself(At(s), h);
    if s.tabs.selectedTask.Some? && SelectedAgent(s.tabs).Some? {
      var rpc := AgentCreateChild(s.tabs.selectedTask.value, SelectedAgent(s.tabs).value.id);
      Asks(s, rpc, h);
      if h.created.Some? { CreatedFollows(s, rpc, h); }
    }
  }

  /** A deletion takes the mentions of the agent out of the inbox before anything is read. */
  lemma DeleteFollows(s: App, id: Id, h: Host)
    ensures Follows(Desk(Rpcs(s.trace), WithoutMentions(s.inbox, id)), At(RemoveAgent(s, id, h)), h)
  {
    hide Rpcs;
    hide Follows;
    hide LoadSelectedAgent;
    hide Remember;
    hide Without;
    hide WithoutMentions;
    hide AgentsForSelectedTask;
    var t := s.tabs.(agents := Without(s.tabs.agents, id));
    var left := s.(tabs := t, inbox := WithoutMentions(s.inbox, id));
    FollowsItself(At(left), h);
    LoadFollows(left.(tabs := Remember(t.(selectedAgent := FirstId(AgentsForSelectedTask(t))))), h);
  }

  lemma CreationsFollow(s: App, e: Event, h: Host)
    requires e.NewTask? || e.NewAgent? || e.NewChild?
    ensures Follows(At(s), At(TabStep(s, e, h)), h)
  {
    hide At;
    hide Follows;
    hide CreateTask;
    hide CreateAgent;
    hide CreateChild;
    if e.NewTask? {
      NewTaskFollows(s, e.title, h);
    } else if e.NewAgent? {
      NewAgentFollows(s, e.pickerReady, h);
    } else {
      NewChildFollows(s, e.pickerReady, h);
    }
  }

  lemma SelectionsFollow(s: App, e: Event, h: Host)
    requires e.Open? || e.Switch? || e.Close? || e.Select?
    ensures Follows(At(s), At(TabStep(s, e, h)), h)
  {
    hide At;
    hide Follows;
    hide OpenTask;
    hide CloseTaskTab;
    hide SelectAgent;
    FollowsItself(At(s), h);
    if e.Open? || e.Switch? {
      OpenFollows(s, e.id, h);
    } else if e.Close? {
      CloseFollows(s, e.id, h);
    } else {
      SelectFollows(s, e.id, h);
    }
  }

  lemma TabsFollow(s: App, e: Event, h: Host)
    requires AboutTabs(e) && !e.Delete?
    ensures Follows(At(s), At(TabStep(s, e, h)), h)
  {
    hide At;
    hide Follows;
    hide TabStep;
    if e.NewTask? || e.NewAgent? || e.NewChild? { CreationsFollow(s, e, h); } else { SelectionsFollow(s, e, h); }
  }

  // ------------------------------------------------------------ cancelling and searching

  lemma {:induction false} CancelsAskNothing(s: App, dones: seq<CancelDone>)
    ensures At(ApplyCancels(s, dones)) == At(s)
  {
    hide Rpcs;
    hide Mon;
    hide SetStatus;
    hide FindEither;
    if dones != [] { CancelsAskNothing(s, dones[..|dones| - 1]); }
  }

  lemma SubmitFollows(s: App, h: Host)
    ensures Follows(At(s), At(SubmitSearch(s, h)), h)
  {
    hide Rpcs;
    hide Mon;
    hide Trim;
    hide Follows;
    assert Rpcs(s.trace) + [] == Rpcs(s.trace);
    Asks(s, SearchQuery(Trim(s.search.text)), h);
  }

  lemma DebounceFollows(s: App, h: Host)
    ensures Follows(At(s), At(TickSearchDebounce(s, h)), h)
  {
    hide Rpcs;
    hide Mon;
    hide Follows;
    hide SubmitSearch;
    assert Rpcs(s.trace) + [] == Rpcs(s.trace);
    FollowsItself(At(s), h);
    SubmitFollows(Note(s, Debounced(s.now)), h);
  }

  lemma TickFollows(s: App, h: Host)
    ensures Follows(At(s), At(TickRpc(s, h)), h)
  {
    hide Follows;
    hide ApplyCancels;
    hide TickSearchDebounce;
    var drained := s.(cancel := s.cancel.(results := []));
    CancelsAskNothing(drained, s.cancel.results);
    DebounceFollows(ApplyCancels(drained, s.cancel.results), h);
  }

  lemma StopFollows(s: App, h: Host)
    ensures Follows(At(s), At(CancelRunningAgent(s)), h)
  {
    hide Rpcs;
    hide Mon;
    hide Follows;
    hide SelectedAgent;
    assert Rpcs(s.trace) + [] == Rpcs(s.trace);
    FollowsItself(At(s), h);
  }

  lemma WorkerFollows(s: App, h: Host)
    ensures Follows(At(s), At(WorkerDone(s, h)), h)
  {
    hide Rpcs;
    hide Mon;
    hide Follows;
    FollowsItself(At(s), h);
    if s.cancel.workers != [] { Asks(s, AgentCancel(s.cancel.workers[0]), h); }
  }

  lemma RespondFollows(s: App, decision: string, h: Host)
    ensures Follows(At(s), At(RespondApproval(s, decision, h)), h)
  {
    hide Rpcs;
    hide Mon;
    hide Follows;
    hide SelectedAgent;
    FollowsItself(At(s), h);
    var agent := SelectedAgent(s.tabs);
    if agent.Some? && agent.value.id in s.tabs.approvals {
      Asks(s, ApprovalRespond(s.tabs.approvals[agent.value.id].approvalId, decision), h);
    }
  }

  /** The user talks to the agent shown. */
  predicate Talks(e: Event) {
    e.Enter? || e.Send? || e.Steer?
  }

  lemma TalkFollows(s: App, e: Event, h: Host)
    requires AboutTalk(e) && !Talks(e)
    ensures Follows(At(s), At(TalkStep(s, e, h)), h)
  {
    hide Rpcs;
    hide Follows;
    hide CancelRunningAgent;
    hide WorkerDone;
    hide TickRpc;
    hide RespondApproval;
    if e.Stop? {
      StopFollows(s, h);
    } else if e.WorkerReply? {
      WorkerFollows(s, h);
    } else if e.Tick? {
      TickFollows(s, h);
    } else {
      RespondFollows(s, e.decision, h);
    }
  }

  lemma PickFollows(s: App, index: nat, artifactTask: Option<Id>, h: Host)
    ensures Follows(At(s), At(ActivateSearchResult(s, index, artifactTask, h)), h)
  {
    hide Rpcs;
    hide Mon;
    hide Follows;
    hide OpenTask;
    hide DismissSearch;
    FollowsItself(At(s), h);
    DismissalAsksNothing(s);
    if index < |s.search.items| {
      var id := s.search.items[index].id;
      OpenFollows(s, id, h);
      DismissalAsksNothing(OpenTask(s, id, h));
      DismissalAsksNothing(s.(catalog := s.catalog.(workspaceId := Some(id))));
    }
    if artifactTask.Some? {
      OpenFollows(s, artifactTask.value, h);
      DismissalAsksNothing(OpenTask(s, artifactTask.value, h));
    }
  }

  lemma DismissalAsksNothing(s: App)
    ensures At(DismissSearch(s)) == At(s)
  {
    hide Rpcs;
    hide Mon;
    assert Rpcs(s.trace) + [] == Rpcs(s.trace);
  }

  lemma ReturnFollows(s: App, artifactTask: Option<Id>, h: Host)
    ensures Follows(At(s), At(SearchEnter(s, artifactTask, h)), h)
  {
    hide Follows;
    hide SubmitSearch;
    hide ActivateSearchResult;
    PickFollows(s, 0, artifactTask, h);
    var found := SubmitSearch(s, h);
    SubmitFollows(s, h);
    PickFollows(found, 0, artifactTask, h);
    FollowsOn(At(s), At(found), At(ActivateSearchResult(found, 0, artifactTask, h)), h);
  }

  lemma SearchFollows(s: App, e: Event, h: Host)
    requires AboutSearch(e)
    ensures Follows(At(s), At(SearchStep(s, e, h)), h)
  {
    hide Rpcs;
    hide Mon;
    hide Follows;
    hide SubmitSearch;
    hide SearchEnter;
    hide ActivateSearchResult;
    assert Rpcs(s.trace) + [] == Rpcs(s.trace);
    FollowsItself(At(s), h);
    if e.SearchSubmit? {
      SubmitFollows(s, h);
    } else if e.SearchReturn? {
      ReturnFollows(s, e.artifactTask, h);
    } else if e.SearchPick? {
      PickFollows(s, e.index, e.artifactTask, h);
    }
  }

  // ------------------------------------------------------------ gates and forms

  lemma ImportedFollows(s: App, h: Host)
    ensures Follows(At(s), At(AfterGuarded(s, SyncImport, h)), h)
  {
    hide Follows;
    hide RefreshCatalog;
    hide ReloadAgents;
    hide LoadSelectedAgent;
    CatalogFollows(s, h);
    var catalog := RefreshCatalog(s, h);
    if catalog.tabs.selectedTask.Some? {
      ReloadAgentsFollows(catalog, catalog.tabs.selectedTask.value, h);
      var listed := ReloadAgents(catalog, catalog.tabs.selectedTask.value, h);
      FollowsOn(At(s), At(catalog), At(listed), h);
      LoadFollows(listed, h);
      FollowsOn(At(s), At(listed), At(LoadSelectedAgent(listed, h)), h);
    }
  }

  lemma AfterGuardedFollows(s: App, g: Gate, h: Host)
    ensures Follows(At(s), At(AfterGuarded(s, g, h)), h)
  {
    hide Follows;
    hide RefreshCatalog;
    hide ReloadAgents;
    hide LoadSelectedAgent;
    hide LoadedPresets;
    if g == SyncImport { ImportedFollows(s, h); } else { FollowsItself(At(s), h); CatalogFollows(s, h); }
  }

  lemma ConfirmFollows(s: App, g: Gate, picked: bool, h: Host)
    ensures Follows(At(s), At(ConfirmGate(s, g, picked, h)), h)
  {
    hide Rpcs;
    hide Mon;
    hide Follows;
    hide Offered;
    hide Prepared;
    hide AfterGuarded;
    hide Put;
    assert Rpcs(s.trace) + [] == Rpcs(s.trace);
    var closed := Note(CloseGate(s, g), Confirmed(g));
    Asks(closed, Guarded(g), h);
    var sent := Emit(closed, Guarded(g));
    AfterGuardedFollows(sent, g, h);
    FollowsOn(At(s), At(sent), At(AfterGuarded(sent, g, h)), h);
  }

  lemma RequestAsksNothing(s: App, g: Gate)
    ensures At(RequestGate(s, g)) == At(s) == At(WithdrawGate(s, g))
  {
    hide Rpcs;
    hide Mon;
    hide Offered;
    hide Prepared;
    hide Put;
  }

  lemma GatesFollow(s: App, e: Event, h: Host)
    requires AboutGates(e)
    ensures Follows(At(s), At(GateStep(s, e, h)), h)
  {
    hide At;
    hide Follows;
    hide RequestGate;
    hide WithdrawGate;
    hide ConfirmGate;
    FollowsItself(At(s), h);
    RequestAsksNothing(s, e.gate);
    if e.Confirm? { ConfirmFollows(s, e.gate, e.picked, h); }
  }

  lemma EditFollows(s: App, rpc: Rpc, h: Host)
    requires s.conn.session.Some? && (rpc.WorkspaceAdd? || rpc.TaskRename? || rpc.TaskArchive?)
    ensures Follows(At(s), At(EditCatalog(s, rpc, h)), h)
  {
    hide Rpcs;
    hide Mon;
    hide Follows;
    hide RefreshCatalog;
    Asks(s, rpc, h);
    var asked := Emit(s, rpc);
    CatalogFollows(asked, h);
    FollowsOn(At(s), At(asked), At(RefreshCatalog(asked, h)), h);
  }

  lemma CatalogFormsFollow(s: App, e: Event, h: Host)
    requires e.NewWorkspace? || e.Rename? || e.Archive?
    ensures Follows(At(s), At(FormStep(s, e, h)), h)
  {
    hide Rpcs;
    hide Follows;
    hide Trim;
    hide EditCatalog;
    FollowsItself(At(s), h);
    if s.conn.session.Some? {
      if e.NewWorkspace? {
        EditFollows(s, WorkspaceAdd(Trim(e.path)), h);
      } else if e.Rename? {
        EditFollows(s, TaskRename(e.id, Trim(e.title)), h);
      } else {
        EditFollows(s, TaskArchive(e.id), h);
      }
    }
  }

  lemma SyncFormsFollow(s: App, e: Event, h: Host)
    requires e.Export? || e.Push?
    ensures Follows(At(s), At(FormStep(s, e, h)), h)
  {
    hide Rpcs;
    hide Mon;
    hide Follows;
    hide Trim;
    hide Offered;
    hide Put;
    Asks(s, SyncExport, h);
    Asks(s, SyncPush, h);
  }

  lemma PresetFormsFollow(s: App, e: Event, h: Host)
    requires e.NewPreset? || e.EditPreset?
    ensures Follows(At(s), At(FormStep(s, e, h)), h)
  {
    hide Rpcs;
    hide Mon;
    hide Follows;
    hide Deletable;
    hide SelectedUserPreset;
    hide LoadedPresets;
    hide PresetPicked;
    hide Offered;
    hide Put;
    Asks(s, PresetCreate, h);
    var preset := SelectedUserPreset(s.catalog);
    if preset.Some? { Asks(s, PresetUpdate(preset.value), h); }
    if preset.None? { DeletableIsSome(preset); }
  }

  lemma DeletableIsSome(preset: Option<Id>)
    ensures Deletable(preset) ==> preset.Some?
  {
  }

  lemma FormsFollow(s: App, e: Event, h: Host)
    requires AboutForms(e)
    ensures Follows(At(s), At(FormStep(s, e, h)), h)
  {
    hide At;
    hide Follows;
    hide FormStep;
    if e.NewWorkspace? || e.Rename? || e.Archive? {
      CatalogFormsFollow(s, e, h);
    } else if e.Export? || e.Push? {
      SyncFormsFollow(s, e, h);
    } else {
      PresetFormsFollow(s, e, h);
    }
  }

  // ------------------------------------------------------------ agents and the inbox

  lemma SwitchModelFollows(s: App, ready: bool, h: Host)
    ensures Follows(At(s), At(SwitchAgent(s, ready, h)), h)
  {
    hide Follows;
    hide SelectedAgent;
    hide IsRunning;
    hide AskSwitch;
    FollowsItself(At(s), h);
    if SelectedAgent(s.tabs).Some? && s.conn.session.Some? { AskSwitchFollows(s, SelectedAgent(s.tabs).value.id, h); }
  }

  lemma AskSwitchFollows(s: App, id: Id, h: Host)
    requires s.conn.session.Some?
    ensures Follows(At(s), At(AskSwitch(s, id, h)), h)
  {
    hide Rpcs;
    hide Mon;
    hide Follows;
    hide RefreshAgent;
    Asks(s, AgentSwitch(id), h);
    if h.switched(id).Some? {
      var asked := Emit(s, AgentSwitch(id));
      var taken := asked.(tabs := asked.tabs.(agents := Answered(asked.tabs.agents, id, h.switched(id))));
      RefreshAgentFollows(taken, id, h);
      FollowsOn(At(s), At(taken), At(RefreshAgent(taken, id, h)), h);
    }
  }

  lemma RoleFollows(s: App, changed: bool, h: Host)
    ensures Follows(At(s), At(UpdateRole(s, changed, h)), h)
  {
    hide Rpcs;
    hide Mon;
    hide Follows;
    hide Answered;
    FollowsItself(At(s), h);
    if s.tabs.selectedAgent.Some? { Asks(s, AgentUpdateRole(s.tabs.selectedAgent.value), h); }
  }

  lemma DeliverFollows(s: App, target: Option<Id>, text: string, live: bool, h: Host)
    ensures Follows(At(s), At(Deliver(s, target, text, live, h)), h)
  {
    hide Rpcs;
    hide Mon;
    hide Trim;
    hide Find;
    hide SelectedAgent;
    hide Follows;
    FollowsItself(At(s), h);
    var from := SelectedAgent(s.tabs);
    if from.Some? && target.Some? {
      var rpc := A2aDeliver(from.value.id, target.value, Trim(text));
      AskOne(At(s), rpc, h);
      ReceiptIsMerged(s, rpc, h);
    }
  }

  lemma ReceiptIsMerged(s: App, rpc: Rpc, h: Host)
    requires rpc.A2aDeliver?
    ensures At(AfterDelivery(Emit(s, rpc), rpc.from, rpc.content, h))
            == Desk(Rpcs(s.trace) + [rpc], MergeAll(s.inbox, Heard(rpc, h)))
  {
    hide Rpcs;
    hide Mon;
    hide Merge;
    if h.delivered.Some? {
      var item := InboxItem(rpc.from, h.delivered.value.0, h.delivered.value.1, rpc.content);
      assert Heard(rpc, h) == [item] && MergeAll(s.inbox, [item][..0]) == s.inbox;
    }
  }

  lemma ToggleFollows(s: App, path: string, h: Host)
    ensures Follows(At(s), At(ToggleDir(s, path, h)), h)
  {
    hide Rpcs;
    hide Mon;
    hide Follows;
    Asks(s, FilesTree(path), h);
  }

  lemma AgentsFollow(s: App, e: Event, h: Host)
    requires AboutAgents(e) && !e.WsDelivered?
    ensures Follows(At(s), At(AgentsStep(s, e, h)), h)
  {
    hide Rpcs;
    hide Follows;
    hide ApprovalAsked;
    hide StatusChanged;
    hide Deliver;
    hide ToggleDir;
    hide SwitchAgent;
    hide UpdateRole;
    FollowsItself(At(s), h);
    if e.DeliverTo? {
      DeliverFollows(s, e.target, e.text, e.inboxLive, h);
    } else if e.Toggle? {
      ToggleFollows(s, e.path, h);
    } else if e.SwitchModel? {
      SwitchModelFollows(s, e.ready, h);
    } else if e.PickRole? {
      RoleFollows(s, e.changed, h);
    }
  }

  lemma DraftsFollow(s: App, e: Event, h: Host)
    ensures Follows(At(s), At(DraftStep(s, e)), h)
  {
    hide Rpcs;
    hide Follows;
    hide PresetPicked;
    FollowsItself(At(s), h);
  }

  // ------------------------------------------------------------ one step

  /** RPCs and inbox as an event finds them once its own part is done: a deletion drops the
      mentions of the agent, a delivery the host reports is merged. */
  function Start(s: App, e: Event): Desk {
    match e
    case Delete(id) => Desk(Rpcs(s.trace), WithoutMentions(s.inbox, id))
    case WsDelivered(from, to, messageId) => Desk(Rpcs(s.trace), Merge(s.inbox, InboxItem(from, to, messageId, "")))
    case _ => At(s)
  }

  lemma StepFollows(s: App, e: Event, h: Host)
    requires !Talks(e)
    ensures Follows(Start(s, e), At(Step(s, e, h)), h)
  {
    hide At;
    hide Follows;
    hide Start;
    hide Step;
    if e.Delete? || e.WsDelivered? {
      SpecialFollows(s, e, h);
    } else {
      OrdinaryFollows(s, e, h);
    }
  }

  lemma SpecialFollows(s: App, e: Event, h: Host)
    requires e.Delete? || e.WsDelivered?
    ensures Follows(Start(s, e), At(Step(s, e, h)), h)
  {
    hide Rpcs;
    hide Mon;
    hide Follows;
    hide RemoveAgent;
    hide WithoutMentions;
    hide Merge;
    if e.Delete? { DeleteFollows(s, e.id, h); } else { FollowsItself(Start(s, e), h); }
  }

  lemma OrdinaryFollows(s: App, e: Event, h: Host)
    requires !Talks(e) && !e.Delete? && !e.WsDelivered?
    ensures Follows(Start(s, e), At(Step(s, e, h)), h)
  {
    hide At;
    hide Follows;
    hide ConnectionStep;
    hide TabStep;
    hide TalkStep;
    hide SearchStep;
    hide GateStep;
    hide AgentsStep;
    hide FormStep;
    hide DraftStep;
    if AboutConnection(e) {
      ConnectionFollows(s, e, h);
    } else if AboutTabs(e) {
      TabsFollow(s, e, h);
    } else if AboutTalk(e) {
      TalkFollows(s, e, h);
    } else if AboutSearch(e) {
      SearchFollows(s, e, h);
    } else if AboutGates(e) {
      GatesFollow(s, e, h);
    } else if AboutAgents(e) {
      AgentsFollow(s, e, h);
    } else if AboutForms(e) {
      FormsFollow(s, e, h);
    } else {
      DraftsFollow(s, e, h);
    }
  }

  // ------------------------------------------------------------ talking

  /** There is an agent shown, a session and something typed, and no cancel is pending. */
  predicate CanTalk(s: App) {
    SelectedAgent(s.tabs).Some? && s.cancel.pending.None? && s.conn.session.Some? && Trim(s.composer) != ""
  }

  predicate CanSteer(s: App) {
    CanTalk(s) && SelectedAgent(s.tabs).value.status == Running && s.conn.session.value.steer
  }

  predicate CanSend(s: App) {
    && CanTalk(s) && s.conn.status == Online
    && SelectedAgent(s.tabs).value.status != Running && !SelectedAgent(s.tabs).value.IsTerminal()
  }

  /** e in s sends m: what is typed, to the agent shown; a steer if that agent runs and a send if
      it does not. */
  ghost predicate Says(s: App, e: Event, m: Rpc) {
    match m
    case AgentSteer(id, content) =>
      (e.Enter? || e.Steer?) && CanSteer(s) && id == SelectedAgent(s.tabs).value.id && content == Trim(s.composer)
    case AgentSend(id, content) =>
      (e.Enter? || e.Send?) && CanSend(s) && id == SelectedAgent(s.tabs).value.id && content == Trim(s.composer)
    case _ => false
  }

  function Steering(s: App): seq<Rpc> {
    if CanSteer(s) then [AgentSteer(SelectedAgent(s.tabs).value.id, Trim(s.composer))] else []
  }

  function Sending(s: App): seq<Rpc> {
    if CanSend(s) then [AgentSend(SelectedAgent(s.tabs).value.id, Trim(s.composer))] else []
  }

  lemma SteerSays(s: App, h: Host)
    ensures At(SteerComposer(s, h)) == Desk(Rpcs(s.trace) + Steering(s), s.inbox)
  {
    hide Rpcs;
    hide Mon;
    hide Trim;
    hide SelectedAgent;
    assert Rpcs(s.trace) + [] == Rpcs(s.trace);
  }

  lemma SendSays(s: App, h: Host)
    ensures At(SendComposer(s, h)) == Desk(Rpcs(s.trace) + Sending(s), s.inbox)
  {
    hide Rpcs;
    hide Mon;
    hide Trim;
    hide SelectedAgent;
    assert Rpcs(s.trace) + [] == Rpcs(s.trace);
  }

  /** The message of an event, if it has one. */
  function Said(s: App, e: Event): seq<Rpc> {
    if e.Steer? || (e.Enter? && IsRunning(s.tabs)) then Steering(s)
    else if e.Send? || e.Enter? then Sending(s)
    else []
  }

  lemma SaidIsSays(s: App, e: Event)
    ensures |Said(s, e)| <= 1 && forall m :: m in Said(s, e) <==> Says(s, e, m)
  {
    hide Trim;
    hide SelectedAgent;
  }

  lemma EnterSays(s: App, h: Host)
    ensures At(ModEnter(s, h)) == Desk(Rpcs(s.trace) + Said(s, Enter), s.inbox)
  {
    hide At;
    hide Steering;
    hide Sending;
    hide IsRunning;
    hide SteerComposer;
    hide SendComposer;
    SteerSays(s, h);
    SendSays(s, h);
  }

  /** What talking sends, and that it leaves the inbox alone. */
  lemma TalkSays(s: App, e: Event, h: Host)
    requires Talks(e)
    ensures At(Step(s, e, h)) == Desk(Rpcs(s.trace) + Said(s, e), s.inbox)
  {
    hide At;
    hide Step;
    hide Steering;
    hide Sending;
    hide ModEnter;
    hide SteerComposer;
    hide SendComposer;
    TalkStepIs(s, e, h);
    if e.Enter? { EnterSays(s, h); } else if e.Steer? { SteerSays(s, h); } else { SendSays(s, h); }
  }

  /** The messages to agents a run sent, in order. */
  function Messages(t: Trace): seq<Rpc> {
    Where(Rpcs(t), IsMessage)
  }

  /** Whatever the step, it sends what its event says and nothing else to an agent. */
  lemma StepSays(s: App, e: Event, h: Host) returns (said: seq<Rpc>)
    ensures Messages(Step(s, e, h).trace) == Messages(s.trace) + said
    ensures |said| <= 1 && forall m :: m in said <==> Says(s, e, m)
  {
    hide Rpcs;
    hide Step;
    hide Said;
    hide Says;
    var before, after := Rpcs(s.trace), Rpcs(Step(s, e, h).trace);
    SaidIsSays(s, e);
    if Talks(e) {
      said := Said(s, e);
      TalkSays(s, e, h);
      SaysMessages(s, e);
      WhereConcat(before, said, IsMessage);
      WhereAll(said, IsMessage);
    } else {
      said := [];
      SilentOtherwise(s, e);
      StepFollows(s, e, h);
      StartKeepsRpcs(s, e);
      var asked := after[|before|..];
      assert after == before + asked;
      WhereConcat(before, asked, IsMessage);
      WhereNone(asked, IsMessage);
    }
  }

  lemma SaysMessages(s: App, e: Event)
    ensures forall m :: Says(s, e, m) ==> IsMessage(m)
  {
  }

  lemma SilentOtherwise(s: App, e: Event)
    requires !Talks(e)
    ensures forall m :: !Says(s, e, m)
  {
  }

  lemma StartKeepsRpcs(s: App, e: Event)
    ensures Start(s, e).rpcs == Rpcs(s.trace)
  {
    hide Rpcs;
  }

  /** The state of a run before its event k. */
  function Before(events: seq<(Event, Host)>, k: nat): App
    requires k <= |events|
  {
    Run(Initial, events[..k])
  }

  /** Every message a run sends to an agent is said by an event of its own, in order, to the
      agent shown at that moment and as that agent's status asks; and nothing said is lost. */
  lemma {:induction false} MessagesAreSaid(events: seq<(Event, Host)>) returns (at: seq<nat>)
    ensures |at| == |Messages(Run(Initial, events).trace)|
    ensures forall i, j :: 0 <= i < j < |at| ==> at[i] < at[j]
    ensures forall i :: 0 <= i < |at| ==>
              at[i] < |events| && Says(Before(events, at[i]), events[at[i]].0, Messages(Run(Initial, events).trace)[i])
    ensures forall k, m :: 0 <= k < |events| && Says(Before(events, k), events[k].0, m) ==> k in at
  {
    hide Says;
    hide Step;
    hide Messages;
    if events == [] {
      at := [];
      NothingSaidYet();
    } else {
      var n := |events| - 1;
      var front := events[..n];
      at := MessagesAreSaid(front);
      assert forall k :: 0 <= k <= n ==> front[..k] == events[..k];
      assert forall k :: 0 <= k < n ==> front[k] == events[k];
      assert front == events[..n] && Before(events, n) == Run(Initial, front);
      var said := StepSays(Before(events, n), events[n].0, events[n].1);
      var earlier := at;
      if said != [] {
        assert said[0] in said;
        at := at + [n];
      }
      forall k, m | 0 <= k < |events| && Says(Before(events, k), events[k].0, m) ensures k in at {
        if k < n { assert Says(Before(front, k), front[k].0, m) && k in earlier; } else { assert m in said; }
      }
    }
  }

  lemma NothingSaidYet()
    ensures Messages(Run(Initial, []).trace) == []
  {
  }

  // ------------------------------------------------------------ what arrives

  /** What step e adds to what the inbox is told: the delivery the host reports, then the answers
      to the RPCs of the step. */
  function Arriving(s: App, e: Event, h: Host): seq<InboxItem> {
    var before, after := Rpcs(s.trace), Rpcs(Step(s, e, h).trace);
    (if e.WsDelivered? then [InboxItem(e.from, e.to, e.messageId, "")] else [])
      + if |before| <= |after| then AllHeard(after[|before|..], h) else []
  }

  /** The inbox after a step is the one before, less the mentions of an agent the step deletes,
      with everything merged that arrives in it; and no RPC is ever unsent. */
  lemma StepMergesArrivals(s: App, e: Event, h: Host)
    ensures Rpcs(s.trace) <= Rpcs(Step(s, e, h).trace)
    ensures Step(s, e, h).inbox
            == MergeAll(if e.Delete? then WithoutMentions(s.inbox, e.id) else s.inbox, Arriving(s, e, h))
  {
    hide Rpcs;
    hide Step;
    hide Said;
    hide Says;
    hide Heard;
    hide WithoutMentions;
    hide Merge;
    var before, after := Rpcs(s.trace), Rpcs(Step(s, e, h).trace);
    if Talks(e) {
      TalkSays(s, e, h);
      SaidIsSays(s, e);
      SaysMessages(s, e);
      assert after[|before|..] == Said(s, e);
      MessagesTellNothing(Said(s, e), h);
    } else {
      StepFollows(s, e, h);
      StartKeepsRpcs(s, e);
      var heard := AllHeard(after[|before|..], h);
      if e.WsDelivered? {
        var item := InboxItem(e.from, e.to, e.messageId, "");
        MergeAllTwice(s.inbox, [item], heard);
        assert MergeAll(s.inbox, [item][..0]) == s.inbox;
      } else {
        assert Arriving(s, e, h) == heard;
      }
    }
  }

  lemma {:induction false} MessagesTellNothing(rpcs: seq<Rpc>, h: Host)
    requires forall rpc :: rpc in rpcs ==> IsMessage(rpc)
    ensures AllHeard(rpcs, h) == []
  {
    if rpcs != [] {
      assert Last(rpcs) in rpcs;
      MessagesTellNothing(rpcs[..|rpcs| - 1], h);
    }
  }

  /** All that arrives in a run from event k on, in order. */
  function Arrivals(events: seq<(Event, Host)>, k: nat): seq<InboxItem> {
    if |events| <= k then []
    else
      var front := events[..|events| - 1];
      Arrivals(front, k) + Arriving(Run(Initial, front), Last(events).0, Last(events).1)
  }

  /** No agent is deleted from event k on. */
  ghost predicate DeletesNobody(events: seq<(Event, Host)>, k: nat) {
    forall i :: k <= i < |events| ==> !events[i].0.Delete?
  }

  /** Nothing in the inbox of a run is made up: what was not there before event k arrived since.
      And since the last deletion nothing is lost: everything that arrived is merged, in order. */
  lemma {:induction false} InboxIsArrivals(events: seq<(Event, Host)>, k: nat)
    requires k <= |events|
    ensures forall x :: x in Run(Initial, events).inbox ==> x in Before(events, k).inbox || x in Arrivals(events, k)
    ensures DeletesNobody(events, k) ==>
              Run(Initial, events).inbox == MergeAll(Before(events, k).inbox, Arrivals(events, k))
    decreases |events|
  {
    hide Step;
    hide Arriving;
    hide WithoutMentions;
    if |events| == k {
      assert events[..k] == events;
    } else {
      var front, e, h := events[..|events| - 1], Last(events).0, Last(events).1;
      var s := Run(Initial, front);
      var arriving := Arriving(s, e, h);
      InboxIsArrivals(front, k);
      assert front[..k] == events[..k];
      StepMergesArrivals(s, e, h);
      MergeAllTwice(Before(events, k).inbox, Arrivals(front, k), arriving);
      assert DeletesNobody(events, k) ==> DeletesNobody(front, k) && !e.Delete?;
      var kept := if e.Delete? then WithoutMentions(s.inbox, e.id) else s.inbox;
      MergeAllFacts(kept, arriving);
      forall x | x in kept ensures x in s.inbox { if e.Delete? { KeptWereThere(s.inbox, e.id, x); } }
    }
  }

  lemma KeptWereThere(inbox: seq<InboxItem>, id: Id, x: InboxItem)
    requires x in WithoutMentions(inbox, id)
    ensures x in inbox
  {
    WhereMembers(inbox, (m: InboxItem) => m.toAgentId != id && m.fromAgentId != id, x);
  }

  /** Two runs that delete nobody and in which the same things arrive, in whatever order and
      through whatever commands, hold the same message ids: those that arrived. */
  lemma ArrivalOrderDoesNotMatter(events: seq<(Event, Host)>, others: seq<(Event, Host)>, id: string)
    requires DeletesNobody(events, 0) && DeletesNobody(others, 0)
    requires multiset(Arrivals(events, 0)) == multiset(Arrivals(others, 0))
    ensures Holds(Run(Initial, events).inbox, id) <==> Holds(Run(Initial, others).inbox, id)
    ensures Holds(Run(Initial, events).inbox, id) <==> Holds(Arrivals(events, 0), id)
  {
    hide Arrivals;
    InboxIsArrivals(events, 0);
    InboxIsArrivals(others, 0);
    assert events[..0] == [] == others[..0];
    ArrivalOrderIrrelevant([], Arrivals(events, 0), Arrivals(others, 0));
    MergeAllFacts([], Arrivals(events, 0));
  }
}
