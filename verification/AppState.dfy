/** The client as the program has it: one object whose methods change its fields in place
    (state.rs). The fields are grouped into the records of AppModel, and each method is proved
    against its specification there. */
module AppState {
  import opened Basics
  import opened Text
  import opened Agents
  import opened A2a
  import opened Traces
  import opened AppModel
  import opened AppRuns
  import opened TabBarFacts
  import TabOrder

  class AppState {
    var conn: Connection
    var tabs: Tabs
    var composerText: string
    var cancel: Cancel
    var gates: Flags
    var search: Search
    var inbox: seq<InboxItem>
    var agentTabOrder: seq<Id>
    var dirs: Dirs
    var catalog: Catalog
    var now: nat
    ghost var trace: Trace

    /** The abstract state the fields stand for. */
    ghost function View(): App
      reads this
    {
      App(conn, tabs, composerText, cancel, gates, search, inbox, agentTabOrder, dirs, catalog, now, trace)
    }

    constructor ()
      ensures View() == Initial
    {
      conn := Connection(Connecting, true, None, None, None, None);
      tabs := Tabs(TasksScreen, None, None, [], map[], map[], []);
      composerText := "";
      cancel := Cancel(None, [], []);
      gates := NoFlags;
      search := Search("", [], false, None, None);
      inbox, agentTabOrder := [], [];
      dirs := Dirs(map[], {});
      catalog := Catalog([], None, "", BUILTIN_PRESETS, None);
      now, trace := 0, [];
    }

    // ---------------------------------------------------------- loading a canvas

    method RememberSelectedAgent()
      modifies `tabs
      ensures tabs == Remember(old(tabs))
    {
      hide Stays;
      if tabs.selectedTask.Some? && tabs.selectedAgent.Some? {
        tabs := tabs.(remembered := tabs.remembered[tabs.selectedTask.value := tabs.selectedAgent.value]);
      }
    }

    method ReloadAgents(taskId: Id, h: Host)
      modifies `tabs, `trace
      ensures View() == AppModel.ReloadAgents(old(View()), taskId, h)
    {
      hide Quiet;
      hide Mon;
      hide Rpcs;
      hide Find;
      hide OfTask;
      hide NotOfTask;
      if conn.session.None? { return; }
      trace := trace + [Sent(AgentList(taskId))];
      if h.agents(taskId).Some? {
        tabs := tabs.(agents := NotOfTask(tabs.agents, taskId));
        tabs := tabs.(agents := tabs.agents + h.agents(taskId).value);
        var listed := OfTask(tabs.agents, taskId);
        var stillValid := tabs.selectedAgent.Some? && Find(listed, tabs.selectedAgent.value) < |listed|;
        if !stillValid {
          tabs := tabs.(selectedAgent := FirstId(listed));
        }
      }
    }

    /** Goes through a transcript and merges what it announces, message by message. */
    method IngestInbox(agentId: Id, messages: seq<ChatMessage>)
      modifies `inbox
      ensures inbox == MergeAll(old(inbox), Announced(agentId, messages))
    {
      hide InboxItemFromMessage;
      var k := 0;
      while k < |messages|
        invariant 0 <= k <= |messages|
        invariant inbox == MergeAll(old(inbox), Announced(agentId, messages[..k]))
      {
        assert messages[..k + 1][..k] == messages[..k];
        assert Announced(agentId, messages[..k]) + [] == Announced(agentId, messages[..k]);
        var item := InboxItemFromMessage(agentId, messages[k]);
        if item.Some? {
          MergeAllSnoc(old(inbox), Announced(agentId, messages[..k]), item.value);
          MergeInboxItem(item.value);
        }
        k := k + 1;
      }
      assert messages[..k] == messages;
    }

    /** Scans for the message id and appends the item unless it is there. */
    method MergeInboxItem(item: InboxItem)
      modifies `inbox
      ensures inbox == Merge(old(inbox), item)
    {
      var k := 0;
      while k < |inbox|
        invariant 0 <= k <= |inbox| && inbox == old(inbox)
        invariant forall j :: 0 <= j < k ==> !(inbox[j].messageId == item.messageId && item.messageId != "")
      {
        if inbox[k].messageId == item.messageId && item.messageId != "" { return; }
        k := k + 1;
      }
      inbox := inbox + [item];
    }

    method LoadSelectedAgent(h: Host)
      modifies `tabs, `inbox, `trace
      ensures View() == AppModel.LoadSelectedAgent(old(View()), h)
    {
      hide SelectedAgent;
      hide Quiet;
      hide Mon;
      hide Rpcs;
      hide IdsOnce;
      hide Find;
      hide MergeAll;
      hide Announced;
      var shown := SelectedAgent(tabs);
      if shown.None? || conn.session.None? { return; }
      var agentId := shown.value.id;
      trace := trace + [Sent(AgentGet(agentId))];
      if h.agent(agentId).Some? {
        var k := Find(tabs.agents, agentId);
        if k < |tabs.agents| {
          tabs := tabs.(agents := tabs.agents[k := h.agent(agentId).value]);
        }
      }
      trace := trace + [Sent(AgentContext(agentId))];
      if h.context(agentId).Some? {
        IngestInbox(agentId, h.context(agentId).value);
      }
    }

    method ReloadCanvas(taskId: Id, h: Host)
      modifies `tabs, `inbox, `dirs, `trace
      ensures View() == AppModel.ReloadCanvas(old(View()), taskId, h)
    {
      hide AppModel.ReloadAgents;
      hide AppModel.LoadSelectedAgent;
      hide CanvasFrame;
      hide Quiet;
      dirs := Dirs(map[], {});
      ReloadAgents(taskId, h);
      LoadSelectedAgent(h);
    }

    // ---------------------------------------------------------- tabs

    method OpenTask(id: Id, h: Host)
      modifies `tabs, `inbox, `dirs, `trace
      ensures View() == AppModel.OpenTask(old(View()), id, h)
    {
      hide AppModel.ReloadCanvas;
      hide CanvasFrame;
      hide Quiet;
      hide Stays;
      hide Remember;
      RememberSelectedAgent();
      if id !in tabs.open {
        tabs := tabs.(open := tabs.open + [id]);
      }
      tabs := tabs.(selectedTask := Some(id), screen := Canvas);
      tabs := tabs.(selectedAgent := if id in tabs.remembered then Some(tabs.remembered[id]) else None);
      ReloadCanvas(id, h);
    }

    method SwitchTaskTab(id: Id, h: Host)
      modifies `tabs, `inbox, `dirs, `trace
      ensures View() == AppModel.SwitchTaskTab(old(View()), id, h)
    {
      hide AppModel.OpenTask;
      hide Framed;
      if tabs.selectedTask == Some(id) { return; }
      OpenTask(id, h);
    }

    method CloseTaskTab(id: Id, h: Host)
      modifies `tabs, `inbox, `dirs, `trace
      ensures View() == AppModel.CloseTaskTab(old(View()), id, h)
    {
      hide AppModel.OpenTask;
      hide CanvasFrame;
      hide Quiet;
      hide Framed;
      hide Opened;
      var selected := tabs.selectedTask;
      tabs := tabs.(open := Where(tabs.open, o => o != id));
      tabs := tabs.(remembered := tabs.remembered - {id});
      tabs := tabs.(approvals := map k | k in tabs.approvals && tabs.approvals[k].taskId != id :: tabs.approvals[k]);
      assert tabs == Closed(old(tabs), id);
      if selected != Some(id) { return; }
      if tabs.open != [] {
        var next := Last(tabs.open);
        tabs := tabs.(selectedTask := None);
        OpenTask(next, h);
      } else {
        tabs := tabs.(selectedTask := None, selectedAgent := None, screen := TasksScreen);
      }
    }

    method SelectAgent(id: Id, h: Host)
      modifies `tabs, `inbox, `trace
      ensures View() == AppModel.SelectAgent(old(View()), id, h)
    {
      hide AppModel.LoadSelectedAgent;
      hide Framed;
      hide Stays;
      hide Remember;
      hide Quiet;
      if tabs.selectedAgent == Some(id) { return; }
      tabs := tabs.(selectedAgent := Some(id));
      RememberSelectedAgent();
      LoadSelectedAgent(h);
    }

    // ---------------------------------------------------------- connection

    method GoOffline()
      modifies `conn, `catalog
      ensures View() == AppModel.GoOffline(old(View()))
      ensures ConnectionOk(conn) && conn.status == Offline && catalog.workspaces == []
    {
      conn := conn.(ws := None);
      conn := conn.(session := None);
      conn := conn.(token := None);
      conn := conn.(status := Offline);
      catalog := catalog.(workspaces := []);
      catalog := catalog.(workspaceId := None);
    }

    method GoingAway(hostId: string)
      modifies `conn
      ensures View() == AppModel.GoingAway(old(View()), hostId)
      ensures hostId != "" ==> ConnectionOk(conn) && conn.status == Offline
    {
      if hostId == "" { return; }
      conn := conn.(ws := None);
      conn := conn.(session := None);
      conn := conn.(token := None);
      conn := conn.(status := Offline);
    }

    method RefreshTasksCatalog(h: Host)
      modifies `catalog, `trace
      ensures View() == AppModel.RefreshCatalog(old(View()), h)
    {
      hide Quiet;
      hide Mon;
      hide Rpcs;
      if conn.session.None? { return; }
      trace := trace + [Sent(TasksCatalog)];
      if h.workspaces.Some? {
        catalog := catalog.(workspaces := h.workspaces.value);
        if catalog.workspaces != [] {
          catalog := catalog.(workspaceId := Some(catalog.workspaces[0]));
          catalog := catalog.(presets := LoadedPresets(conn, h));
        } else {
          catalog := catalog.(workspaceId := None);
        }
      }
    }

    method RefreshCanvasAfterReconnect(h: Host)
      modifies `tabs, `inbox, `dirs, `trace
      ensures View() == AppModel.RefreshCanvasAfterReconnect(old(View()), h)
    {
      hide AppModel.ReloadCanvas;
      if tabs.selectedTask.Some? {
        ReloadCanvas(tabs.selectedTask.value, h);
      }
    }

    method ApplyDiscovery(h: Host)
      modifies `conn, `catalog, `tabs, `inbox, `dirs, `trace
      ensures View() == AppModel.ApplyDiscovery(old(View()), h)
      ensures ConnectionOk(conn) && conn.status in {Online, Offline}
    {
      hide AppModel.RefreshCatalog;
      hide AppModel.RefreshCanvasAfterReconnect;
      hide WsUrl;
      hide Quiet;
      hide Mon;
      hide Rpcs;
      conn := conn.(status := Connecting);
      conn := conn.(token := None);
      if !h.pidFile {
        GoOffline();
        return;
      }
      trace := trace + [Sent(Connect)];
      if h.connect.None? {
        GoOffline();
        return;
      }
      var session := h.connect.value;
      conn := conn.(token := Some(session.token));
      conn := conn.(ws := WsUrl(session));
      conn := conn.(session := Some(session));
      conn := conn.(status := Online);
      conn := conn.(lastRpc := Some(now));
      RefreshTasksCatalog(h);
      if tabs.screen == Canvas {
        RefreshCanvasAfterReconnect(h);
      }
    }

    method TickDiscovery(h: Host)
      modifies `conn, `catalog, `tabs, `inbox, `dirs, `trace
      ensures View() == AppModel.TickDiscovery(old(View()), h)
    {
      hide AppModel.ApplyDiscovery;
      hide Mon;
      hide Rpcs;
      if conn.pendingDiscover {
        conn := conn.(pendingDiscover := false);
        ApplyDiscovery(h);
        return;
      }
      if conn.status == Online {
        var due := conn.lastRpc.None? || conn.lastRpc.value + KEEPALIVE_MS <= now;
        if due && conn.session.Some? {
          trace := trace + [Sent(Keepalive)];
          if h.alive {
            conn := conn.(lastRpc := Some(now));
          } else {
            GoOffline();
          }
        }
      }
    }

    method RequestRetry()
      modifies `conn
      ensures View() == AppModel.RequestRetry(old(View()))
    {
      conn := conn.(status := Connecting);
      conn := conn.(pendingDiscover := true);
    }

    method Reconnected(h: Host)
      modifies `tabs, `inbox, `dirs, `trace
      ensures View() == AppModel.Reconnected(old(View()), h)
    {
      hide AppModel.RefreshCanvasAfterReconnect;
      if conn.status == Online {
        RefreshCanvasAfterReconnect(h);
      }
    }

    // ---------------------------------------------------------- tasks and agents

    method CreateTask(newTitle: string, h: Host)
      modifies `tabs, `inbox, `dirs, `catalog, `trace
      ensures View() == AppModel.CreateTask(old(View()), newTitle, h)
    {
      hide AppModel.RefreshCatalog;
      hide AppModel.OpenTask;
      hide Framed;
      hide Quiet;
      hide Mon;
      hide Rpcs;
      hide Trim;
      if conn.status != Online { return; }
      if catalog.workspaceId.None? || catalog.workspaceId.value !in catalog.workspaces { return; }
      var title := Trim(newTitle);
      if title == "" || conn.session.None? { return; }
      trace := trace + [Sent(TaskCreate(title))];
      if h.task.Some? {
        catalog := catalog.(newTaskPreset := None);
        RefreshTasksCatalog(h);
        OpenTask(h.task.value, h);
      }
    }

    method AddAgent(stub: AgentStub, h: Host)
      modifies `tabs, `inbox, `trace
      ensures View() == Added(old(View()), stub, h)
    {
      hide AppModel.LoadSelectedAgent;
      hide Framed;
      hide Stays;
      hide Quiet;
      hide Remember;
      tabs := tabs.(selectedAgent := Some(stub.id));
      RememberSelectedAgent();
      tabs := tabs.(agents := tabs.agents + [stub]);
      LoadSelectedAgent(h);
    }

    method CreateAgent(pickerReady: bool, h: Host)
      modifies `tabs, `inbox, `trace
      ensures View() == AppModel.CreateAgent(old(View()), pickerReady, h)
    {
      hide Added;
      hide Framed;
      hide Stays;
      hide Mon;
      hide Rpcs;
      if conn.status != Online || tabs.selectedTask.None? || !pickerReady { return; }
      if conn.session.None? { return; }
      trace := trace + [Sent(AgentCreate(tabs.selectedTask.value))];
      if h.created.Some? {
        AddAgent(h.created.value, h);
      }
    }

    method CreateChildConversation(pickerReady: bool, h: Host)
      modifies `tabs, `inbox, `trace
      ensures View() == CreateChild(old(View()), pickerReady, h)
    {
      hide Added;
      hide SelectedAgent;
      hide Framed;
      hide Stays;
      hide Mon;
      hide Rpcs;
      var parent := SelectedAgent(tabs);
      if conn.status != Online || tabs.selectedTask.None? || !pickerReady || parent.None? { return; }
      if conn.session.None? || !conn.session.value.a2a { return; }
      trace := trace + [Sent(AgentCreateChild(tabs.selectedTask.value, parent.value.id))];
      if h.created.Some? {
        AddAgent(h.created.value, h);
      }
    }

    /** Drops the agent, then goes through the others and clears the pointers to it. */
    method DropFromAgents(id: Id)
      modifies `tabs
      ensures tabs == old(tabs).(agents := Without(old(tabs).agents, id))
    {
      ghost var kept := Where(tabs.agents, (a: AgentStub) => a.id != id);
      tabs := tabs.(agents := Where(tabs.agents, (a: AgentStub) => a.id != id));
      var k := 0;
      while k < |tabs.agents|
        invariant 0 <= k <= |tabs.agents| == |kept|
        invariant tabs == old(tabs).(agents := tabs.agents)
        invariant forall j :: 0 <= j < k ==> tabs.agents[j] == Orphan(kept[j], id)
        invariant forall j :: k <= j < |kept| ==> tabs.agents[j] == kept[j]
      {
        if tabs.agents[k].parentId == Some(id) {
          tabs := tabs.(agents := tabs.agents[k := tabs.agents[k].(parentId := None)]);
        }
        k := k + 1;
      }
      WithoutIsOrphaned(old(tabs).agents, id);
    }

    method RemoveAgent(id: Id, h: Host)
      modifies `tabs, `inbox, `trace
      ensures View() == AppModel.RemoveAgent(old(View()), id, h)
    {
      hide AppModel.LoadSelectedAgent;
      hide AgentsForSelectedTask;
      hide Framed;
      hide Stays;
      hide Quiet;
      hide Remember;
      DropFromAgents(id);
      inbox := WithoutMentions(inbox, id);
      if tabs.selectedAgent == Some(id) {
        tabs := tabs.(selectedAgent := FirstId(AgentsForSelectedTask(tabs)));
        if tabs.selectedAgent.Some? {
          RememberSelectedAgent();
          LoadSelectedAgent(h);
        } else {
          NothingToRemember(tabs);
        }
      }
    }

    // ---------------------------------------------------------- events and approvals

    method ApprovalAsked(approvalId: string, agentId: Id, taskId: Id)
      modifies `tabs
      ensures View() == old(View()).(tabs := AppModel.ApprovalAsked(old(View()).tabs, approvalId, agentId, taskId))
    {
      var onOpen := taskId in tabs.open || tabs.selectedTask == Some(taskId);
      if onOpen && approvalId != "" {
        tabs := tabs.(approvals := tabs.approvals[agentId := Approval(approvalId, agentId, taskId)]);
      }
    }

    method StatusChanged(taskId: Id, agentId: Id, status: AgentStatus)
      modifies `tabs
      ensures View() == old(View()).(tabs := AppModel.StatusChanged(old(View()).tabs, taskId, agentId, status))
    {
      hide Find;
      if tabs.selectedTask.Some? && tabs.selectedTask.value != taskId { return; }
      if tabs.selectedAgent.Some? && tabs.selectedAgent.value != agentId { return; }
      var k := Find(tabs.agents, agentId);
      if k < |tabs.agents| {
        tabs := tabs.(agents := tabs.agents[k := tabs.agents[k].(status := status)]);
      }
    }

    method RespondApproval(decision: string, h: Host)
      modifies `tabs, `trace
      ensures View() == AppModel.RespondApproval(old(View()), decision, h)
    {
      hide SelectedAgent;
      hide Framed;
      hide Stays;
      hide Mon;
      hide Rpcs;
      var agent := SelectedAgent(tabs);
      if agent.None? || agent.value.id !in tabs.approvals { return; }
      var approval := tabs.approvals[agent.value.id];
      if conn.session.None? { return; }
      trace := trace + [Sent(ApprovalRespond(approval.approvalId, decision))];
      if h.ok {
        tabs := tabs.(approvals := tabs.approvals - {approval.agentId});
      }
    }

    // ---------------------------------------------------------- composing and cancelling

    method SendComposer(h: Host)
      modifies `composerText, `trace
      ensures View() == AppModel.SendComposer(old(View()), h)
    {
      hide SelectedAgent;
      hide Framed;
      hide Stays;
      hide Mon;
      hide Rpcs;
      hide Trim;
      var agent := SelectedAgent(tabs);
      if agent.None? || agent.value.IsTerminal() || conn.status != Online || agent.value.status == Running { return; }
      if cancel.pending.Some? { return; }
      var content := Trim(composerText);
      if content == "" { return; }
      if conn.session.None? { return; }
      trace := trace + [Sent(AgentSend(agent.value.id, content))];
      if h.ok {
        composerText := "";
      }
    }

    method SteerComposer(h: Host)
      modifies `composerText, `trace
      ensures View() == AppModel.SteerComposer(old(View()), h)
    {
      hide SelectedAgent;
      hide Framed;
      hide Stays;
      hide Mon;
      hide Rpcs;
      hide Trim;
      if !IsRunning(tabs) { return; }
      if cancel.pending.Some? { return; }
      var content := Trim(composerText);
      if content == "" { return; }
      if conn.session.None? || !conn.session.value.steer { return; }
      trace := trace + [Sent(AgentSteer(SelectedAgent(tabs).value.id, content))];
      if h.ok {
        composerText := "";
      }
    }

    method OnComposerModEnter(h: Host)
      modifies `composerText, `trace
      ensures View() == ModEnter(old(View()), h)
    {
      hide IsRunning;
      hide AppModel.SteerComposer;
      hide AppModel.SendComposer;
      hide Framed;
      hide Stays;
      if IsRunning(tabs) {
        SteerComposer(h);
      } else {
        SendComposer(h);
      }
    }

    /** Marks the cancel as pending and starts its worker. */
    method CancelRunningAgent()
      modifies `cancel, `trace
      ensures View() == AppModel.CancelRunningAgent(old(View()))
    {
      hide SelectedAgent;
      hide Framed;
      hide Stays;
      hide Mon;
      hide Rpcs;
      if cancel.pending.Some? { return; }
      if !IsRunning(tabs) { return; }
      if conn.session.None? { return; }
      var agentId := SelectedAgent(tabs).value.id;
      cancel := cancel.(pending := Some(agentId));
      cancel := cancel.(workers := cancel.workers + [agentId]);
      trace := trace + [CancelStarted(agentId)];
    }

    /** A worker's answer arrives on the channel. */
    method WorkerDone(h: Host)
      modifies `cancel, `trace
      ensures View() == AppModel.WorkerDone(old(View()), h)
    {
      hide Mon;
      hide Rpcs;
      if cancel.workers == [] { return; }
      var agentId := cancel.workers[0];
      cancel := cancel.(workers := cancel.workers[1..]);
      cancel := cancel.(results := cancel.results + [CancelDone(agentId, h.cancel)]);
      trace := trace + [Sent(AgentCancel(agentId))];
    }

    method ApplyCancelResult(done: CancelDone)
      modifies `cancel, `tabs, `trace
      ensures View() == ApplyCancel(old(View()), done)
    {
      hide FindEither;
      hide Framed;
      hide Stays;
      hide Mon;
      hide Rpcs;
      if done.result.Ok? {
        var ok := done.result.value;
        if cancel.pending == Some(done.agentId) || cancel.pending == Some(ok.agentId) {
          cancel := cancel.(pending := None);
        }
        if ok.cancelled {
          cancel := cancel.(pending := None);
        }
        var k := FindEither(tabs.agents, ok.agentId, done.agentId);
        if k < |tabs.agents| {
          tabs := tabs.(agents := tabs.agents[k := tabs.agents[k].(status := Idle)]);
        }
      } else if cancel.pending == Some(done.agentId) {
        cancel := cancel.(pending := None);
      }
      trace := trace + [CancelEnded(done.agentId)];
    }

    /** Drains the channel first, then applies what it held in order. */
    method TickRpc(h: Host)
      modifies `cancel, `tabs, `search, `trace
      ensures View() == AppModel.TickRpc(old(View()), h)
    {
      hide ApplyCancel;
      hide AppModel.TickSearchDebounce;
      hide Framed;
      hide Stays;
      var incoming: seq<CancelDone> := [];
      while cancel.results != []
        invariant incoming + cancel.results == old(cancel).results
        invariant View() == old(View()).(cancel := old(cancel).(results := cancel.results))
        decreases |cancel.results|
      {
        incoming := incoming + [cancel.results[0]];
        cancel := cancel.(results := cancel.results[1..]);
      }
      assert incoming == old(cancel).results;
      ghost var drained := View();
      var k := 0;
      while k < |incoming|
        invariant 0 <= k <= |incoming|
        invariant View() == ApplyCancels(drained, incoming[..k])
      {
        assert incoming[..k + 1][..k] == incoming[..k];
        ApplyCancelResult(incoming[k]);
        k := k + 1;
      }
      assert incoming[..k] == incoming;
      TickSearchDebounce(h);
    }

    // ---------------------------------------------------------- search

    method SubmitSearch(h: Host)
      modifies `search, `trace
      ensures View() == AppModel.SubmitSearch(old(View()), h)
    {
      hide Framed;
      hide Stays;
      hide Mon;
      hide Rpcs;
      hide Trim;
      search := search.(editedAt := None);
      var q := Trim(search.text);
      if q == "" {
        search := search.(items := [], ran := false, lastQ := None);
        trace := trace + [Cleared];
        return;
      }
      if search.lastQ == Some(q) && search.ran { return; }
      if conn.session.None? || conn.session.value.searchRejected { return; }
      trace := trace + [Sent(SearchQuery(q))];
      search := search.(items := if h.query.Some? then h.query.value else []);
      search := search.(ran := true);
      search := search.(lastQ := Some(q));
    }

    method MarkSearchEdited(text: string)
      modifies `search, `trace
      ensures View() == EditSearch(old(View()), text)
    {
      hide Framed;
      hide Stays;
      hide Mon;
      hide Rpcs;
      search := search.(text := text);
      search := search.(editedAt := Some(now));
      trace := trace + [Edited(now)];
    }

    method TickSearchDebounce(h: Host)
      modifies `search, `trace
      ensures View() == AppModel.TickSearchDebounce(old(View()), h)
    {
      hide AppModel.SubmitSearch;
      hide Framed;
      hide Stays;
      hide Mon;
      hide Rpcs;
      if search.editedAt.None? { return; }
      if now < search.editedAt.value + SEARCH_DEBOUNCE_MS { return; }
      trace := trace + [Debounced(now)];
      SubmitSearch(h);
    }

    method DismissSearch()
      modifies `search, `trace
      ensures View() == AppModel.DismissSearch(old(View()))
    {
      hide Framed;
      hide Stays;
      hide Mon;
      hide Rpcs;
      search := search.(ran := false);
      search := search.(items := []);
      search := search.(lastQ := None);
      search := search.(editedAt := None);
      trace := trace + [Cleared];
    }

    method ActivateSearchResult(index: nat, artifactTask: Option<Id>, h: Host)
      modifies `search, `tabs, `inbox, `dirs, `catalog, `trace
      ensures View() == AppModel.ActivateSearchResult(old(View()), index, artifactTask, h)
    {
      hide AppModel.OpenTask;
      hide AppModel.DismissSearch;
      hide CanvasFrame;
      hide Quiet;
      hide Framed;
      hide Stays;
      if index >= |search.items| { return; }
      var item := search.items[index];
      match item.kind {
        case TaskHit => OpenTask(item.id, h);
        case ArtifactHit =>
          if artifactTask.Some? && tabs.selectedTask != artifactTask {
            OpenTask(artifactTask.value, h);
          }
        case WorkspaceHit => catalog := catalog.(workspaceId := Some(item.id));
        case OtherHit =>
      }
      DismissSearch();
    }

    method OnSearchEnter(artifactTask: Option<Id>, h: Host)
      modifies `search, `tabs, `inbox, `dirs, `catalog, `trace
      ensures View() == SearchEnter(old(View()), artifactTask, h)
    {
      hide AppModel.SubmitSearch;
      hide AppModel.ActivateSearchResult;
      hide Framed;
      hide Stays;
      if search.ran && search.items != [] {
        ActivateSearchResult(0, artifactTask, h);
        return;
      }
      SubmitSearch(h);
      if search.items != [] {
        ActivateSearchResult(0, artifactTask, h);
      }
    }

    // ---------------------------------------------------------- guarded commands

    method RequestSyncImport()
      modifies `gates, `trace
      ensures View() == RequestGate(old(View()), SyncImport)
    {
      hide Mon;
      hide Rpcs;
      hide Trim;
      if conn.session.None? || !conn.session.value.sync {
        gates := gates.(syncImport := false);
        return;
      }
      if catalog.workspaceId.None? || Trim(catalog.workspaceId.value) == "" { return; }
      gates := gates.(syncImport := true);
      trace := trace + [Requested(SyncImport)];
    }

    method CancelSyncImport()
      modifies `gates, `trace
      ensures View() == WithdrawGate(old(View()), SyncImport)
    {
      hide Mon;
      hide Rpcs;
      gates := gates.(syncImport := false);
      trace := trace + [Withdrawn(SyncImport)];
    }

    method ConfirmSyncImport(picked: bool, h: Host)
      modifies `gates, `catalog, `tabs, `inbox, `trace
      ensures View() == ConfirmGate(old(View()), SyncImport, picked, h)
    {
      hide AppModel.RefreshCatalog;
      hide AppModel.ReloadAgents;
      hide AppModel.LoadSelectedAgent;
      hide Quiet;
      hide Mon;
      hide Rpcs;
      hide Trim;
      if !gates.syncImport { return; }
      gates := gates.(syncImport := false);
      trace := trace + [Confirmed(SyncImport)];
      if !picked { return; }
      if conn.session.None? || !conn.session.value.sync { return; }
      if catalog.workspaceId.None? || Trim(catalog.workspaceId.value) == "" { return; }
      trace := trace + [Sent(Guarded(SyncImport))];
      if h.ok {
        RefreshTasksCatalog(h);
        if tabs.selectedTask.Some? {
          ReloadAgents(tabs.selectedTask.value, h);
          if tabs.selectedAgent.Some? {
            LoadSelectedAgent(h);
          }
        }
      }
    }

    method RequestSyncPull()
      modifies `gates, `trace
      ensures View() == RequestGate(old(View()), SyncPull)
    {
      hide Mon;
      hide Rpcs;
      hide Trim;
      if conn.session.None? || !conn.session.value.syncPeer {
        gates := gates.(syncPull := false);
        return;
      }
      if Trim(catalog.peerUrl) == "" { return; }
      if catalog.workspaceId.None? || Trim(catalog.workspaceId.value) == "" { return; }
      gates := gates.(syncPull := true);
      trace := trace + [Requested(SyncPull)];
    }

    method CancelSyncPull()
      modifies `gates, `trace
      ensures View() == WithdrawGate(old(View()), SyncPull)
    {
      hide Mon;
      hide Rpcs;
      gates := gates.(syncPull := false);
      trace := trace + [Withdrawn(SyncPull)];
    }

    method ConfirmSyncPull(h: Host)
      modifies `gates, `catalog, `trace
      ensures forall picked :: View() == ConfirmGate(old(View()), SyncPull, picked, h)
    {
      hide AppModel.RefreshCatalog;
      hide Quiet;
      hide Mon;
      hide Rpcs;
      hide Trim;
      if !gates.syncPull { return; }
      gates := gates.(syncPull := false);
      trace := trace + [Confirmed(SyncPull)];
      if conn.session.None? || !conn.session.value.syncPeer { return; }
      if catalog.workspaceId.None? || Trim(catalog.workspaceId.value) == "" { return; }
      if Trim(catalog.peerUrl) == "" { return; }
      trace := trace + [Sent(Guarded(SyncPull))];
      if h.ok {
        RefreshTasksCatalog(h);
      }
    }

    method RequestWorktreeGc()
      modifies `gates, `trace
      ensures View() == RequestGate(old(View()), WorktreeGc)
    {
      hide Mon;
      hide Rpcs;
      if conn.status != Online { return; }
      if conn.session.Some? && conn.session.value.gcRejected {
        gates := gates.(worktreeGc := false);
        return;
      }
      gates := gates.(worktreeGc := true);
      trace := trace + [Requested(WorktreeGc)];
    }

    method CancelWorktreeGc()
      modifies `gates, `trace
      ensures View() == WithdrawGate(old(View()), WorktreeGc)
    {
      hide Mon;
      hide Rpcs;
      gates := gates.(worktreeGc := false);
      trace := trace + [Withdrawn(WorktreeGc)];
    }

    method ConfirmWorktreeGc(h: Host)
      modifies `gates, `trace
      ensures forall picked :: View() == ConfirmGate(old(View()), WorktreeGc, picked, h)
    {
      hide Mon;
      hide Rpcs;
      if !gates.worktreeGc { return; }
      gates := gates.(worktreeGc := false);
      trace := trace + [Confirmed(WorktreeGc)];
      if conn.session.None? { return; }
      if conn.session.value.gcRejected { return; }
      trace := trace + [Sent(Guarded(WorktreeGc))];
    }

    method RequestDeleteUserPreset()
      modifies `gates, `trace
      ensures View() == RequestGate(old(View()), PresetDelete)
    {
      hide Mon;
      hide Rpcs;
      hide Deletable;
      hide SelectedUserPreset;
      if conn.session.None? || !conn.session.value.presetCrud {
        gates := gates.(presetDelete := false);
        return;
      }
      if !Deletable(SelectedUserPreset(catalog)) { return; }
      gates := gates.(presetDelete := true);
      trace := trace + [Requested(PresetDelete)];
    }

    method CancelDeleteUserPreset()
      modifies `gates, `trace
      ensures View() == WithdrawGate(old(View()), PresetDelete)
    {
      hide Mon;
      hide Rpcs;
      gates := gates.(presetDelete := false);
      trace := trace + [Withdrawn(PresetDelete)];
    }

    method ConfirmDeleteUserPreset(h: Host)
      modifies `gates, `catalog, `trace
      ensures forall picked :: View() == ConfirmGate(old(View()), PresetDelete, picked, h)
    {
      hide Mon;
      hide Rpcs;
      hide Deletable;
      hide SelectedUserPreset;
      if !gates.presetDelete { return; }
      gates := gates.(presetDelete := false);
      trace := trace + [Confirmed(PresetDelete)];
      if conn.session.None? || !conn.session.value.presetCrud { return; }
      if !Deletable(SelectedUserPreset(catalog)) { return; }
      trace := trace + [Sent(Guarded(PresetDelete))];
      if h.ok {
        catalog := catalog.(newTaskPreset := None);
        catalog := catalog.(presets := LoadedPresets(conn, h));
      }
    }

    // ---------------------------------------------------------- other forms

    method EditCatalog(ghost rpc: Rpc, h: Host)
      requires conn.session.Some? && (rpc.WorkspaceAdd? || rpc.TaskRename? || rpc.TaskArchive?)
      modifies `catalog, `trace
      ensures View() == AppModel.EditCatalog(old(View()), rpc, h)
    {
      hide AppModel.RefreshCatalog;
      hide FormFrame;
      hide Quiet;
      hide Mon;
      hide Rpcs;
      trace := trace + [Sent(rpc)];
      if h.ok {
        RefreshTasksCatalog(h);
      }
    }

    method SetWorkspacePath(path: string, h: Host)
      modifies `catalog, `trace
      ensures View() == AddWorkspace(old(View()), path, h)
    {
      hide AppModel.EditCatalog;
      hide FormFrame;
      hide Trim;
      var trimmed := Trim(path);
      if trimmed == "" { return; }
      if conn.status != Online || conn.session.None? { return; }
      EditCatalog(WorkspaceAdd(trimmed), h);
    }

    method CommitRename(id: Id, newTitle: string, h: Host)
      modifies `catalog, `trace
      ensures View() == RenameTask(old(View()), id, newTitle, h)
    {
      hide AppModel.EditCatalog;
      hide FormFrame;
      hide Trim;
      var title := Trim(newTitle);
      if title == "" || conn.session.None? { return; }
      EditCatalog(TaskRename(id, title), h);
    }

    method ArchiveTask(id: Id, h: Host)
      modifies `catalog, `trace
      ensures View() == AppModel.ArchiveTask(old(View()), id, h)
    {
      hide AppModel.EditCatalog;
      hide FormFrame;
      if conn.session.None? { return; }
      EditCatalog(TaskArchive(id), h);
    }

    method ExportSync(anyTask: bool, h: Host)
      modifies `gates, `trace
      ensures View() == AppModel.ExportSync(old(View()), anyTask, h)
    {
      hide FormFrame;
      hide Mon;
      hide Rpcs;
      if conn.session.None? || !conn.session.value.sync {
        gates := gates.(syncImport := false);
        return;
      }
      if !anyTask { return; }
      trace := trace + [Sent(Rpc.SyncExport)];
      if !h.ok && h.unsupported {
        gates := gates.(syncImport := false);
      }
    }

    method RequestSyncPush(h: Host)
      modifies `gates, `trace
      ensures View() == PushSync(old(View()), h)
    {
      hide FormFrame;
      hide Mon;
      hide Rpcs;
      hide Trim;
      if conn.session.None? || !conn.session.value.syncPeer {
        gates := gates.(syncPull := false);
        return;
      }
      if Trim(catalog.peerUrl) == "" { return; }
      trace := trace + [Sent(Rpc.SyncPush)];
      if !h.ok && h.unsupported {
        gates := gates.(syncPull := false);
      }
    }

    method CreateUserPreset(valid: bool, h: Host)
      modifies `gates, `catalog, `trace
      ensures View() == CreatePreset(old(View()), valid, h)
    {
      hide FormFrame;
      hide LoadedPresets;
      hide Mon;
      hide Rpcs;
      if conn.session.None? || !conn.session.value.presetCrud {
        gates := gates.(presetDelete := false);
        return;
      }
      if !valid { return; }
      trace := trace + [Sent(PresetCreate)];
      match h.presetCreated {
        case None =>
          if h.unsupported {
            gates := gates.(presetDelete := false);
          }
        case Some(id) =>
          catalog := catalog.(presets := LoadedPresets(conn, h));
          if id != "" {
            SetNewTaskPreset(Some(id));
          }
      }
    }

    method SaveUserPreset(valid: bool, h: Host)
      modifies `gates, `catalog, `trace
      ensures View() == SavePreset(old(View()), valid, h)
    {
      hide FormFrame;
      hide Deletable;
      hide SelectedUserPreset;
      hide LoadedPresets;
      hide Mon;
      hide Rpcs;
      if conn.session.None? || !conn.session.value.presetCrud {
        gates := gates.(presetDelete := false);
        return;
      }
      var preset := SelectedUserPreset(catalog);
      if !valid || !Deletable(preset) { return; }
      DeletableIsSome(preset);
      trace := trace + [Sent(PresetUpdate(preset.value))];
      if h.ok {
        catalog := catalog.(presets := LoadedPresets(conn, h));
      } else if h.unsupported {
        gates := gates.(presetDelete := false);
      }
    }

    // ---------------------------------------------------------- model and role

    method AnswerAgent(id: Id, reply: Option<AgentStub>)
      modifies `tabs
      ensures tabs == old(tabs).(agents := Answered(old(tabs).agents, id, reply))
    {
      if reply.Some? {
        var k := Find(tabs.agents, id);
        if k < |tabs.agents| {
          tabs := tabs.(agents := tabs.agents[k := reply.value]);
        }
      }
    }

    method RefreshAfterSwitch(id: Id, h: Host)
      requires conn.session.Some?
      modifies `tabs, `inbox, `trace
      ensures View() == RefreshAgent(old(View()), id, h)
    {
      hide Answered;
      hide MergeAll;
      hide Announced;
      hide IdsOnce;
      hide Mon;
      hide Rpcs;
      trace := trace + [Sent(AgentGet(id))];
      AnswerAgent(id, h.agent(id));
      trace := trace + [Sent(AgentContext(id))];
      if h.context(id).Some? {
        IngestInbox(id, h.context(id).value);
      }
    }

    method ApplySwitchedAgent(id: Id, stub: AgentStub, h: Host)
      requires conn.session.Some?
      modifies `tabs, `inbox, `trace
      ensures View() == ApplySwitched(old(View()), id, stub, h)
    {
      hide Answered;
      hide RefreshAgent;
      hide Framed;
      var keepId := tabs.selectedAgent;
      AnswerAgent(id, Some(stub));
      RefreshAfterSwitch(id, h);
      if tabs.selectedAgent.None? {
        tabs := tabs.(selectedAgent := keepId);
      }
    }

    method SwitchSelectedAgent(ready: bool, h: Host)
      modifies `tabs, `inbox, `trace
      ensures View() == SwitchAgent(old(View()), ready, h)
    {
      hide SelectedAgent;
      hide ApplySwitched;
      hide Framed;
      hide Stays;
      hide Mon;
      hide Rpcs;
      if conn.session.None? || !conn.session.value.model { return; }
      if IsRunning(tabs) { return; }
      var agent := SelectedAgent(tabs);
      if agent.None? || !ready { return; }
      var id := agent.value.id;
      trace := trace + [Sent(AgentSwitch(id))];
      if h.switched(id).Some? {
        ApplySwitchedAgent(id, h.switched(id).value, h);
      }
    }

    method UpdateSelectedAgentRole(changed: bool, h: Host)
      modifies `tabs, `trace
      ensures View() == UpdateRole(old(View()), changed, h)
    {
      hide Answered;
      hide Framed;
      hide Stays;
      hide Mon;
      hide Rpcs;
      if !changed || tabs.selectedAgent.None? { return; }
      if conn.session.None? || !conn.session.value.workspace { return; }
      var id := tabs.selectedAgent.value;
      trace := trace + [Sent(AgentUpdateRole(id))];
      AnswerAgent(id, h.roleUpdated(id));
    }

    // ---------------------------------------------------------- inbox, tab order, directories

    method DeliverToSelectedTarget(target: Option<Id>, text: string, inboxLive: bool, h: Host)
      modifies `inbox, `trace
      ensures View() == Deliver(old(View()), target, text, inboxLive, h)
    {
      hide SelectedAgent;
      hide Find;
      hide Merge;
      hide Framed;
      hide Stays;
      hide Mon;
      hide Rpcs;
      hide Trim;
      if conn.session.None? || !conn.session.value.a2a { return; }
      var from := SelectedAgent(tabs);
      if from.None? { return; }
      if target.None? || from.value.id == target.value { return; }
      if Find(tabs.agents, target.value) >= |tabs.agents| || !inboxLive { return; }
      var content := Trim(text);
      if content == "" { return; }
      trace := trace + [Sent(A2aDeliver(from.value.id, target.value, content))];
      if h.delivered.Some? {
        var (to, messageId) := h.delivered.value;
        MergeInboxItem(InboxItem(from.value.id, to, messageId, content));
      }
    }

    /** The agents of the selected task as the tab bar shows them: those the stored order names
        first, each as found in the list, then the others. */
    method OrderedAgentsForSelectedTask() returns (out: seq<AgentStub>)
      ensures out == TabBar(View())
      ensures Distinct(agentTabOrder) && Distinct(AgentIds(tabs.agents)) ==> ShowsInOrder(out, agentTabOrder, tabs)
    {
      hide AgentsForSelectedTask;
      hide Find;
      hide Named;
      hide Where;
      NothingNamed(AgentsForSelectedTask(tabs));
      var listed := AgentsForSelectedTask(tabs);
      ghost var order := agentTabOrder;
      out := [];
      var seen: set<Id> := {};
      var k := 0;
      while k < |agentTabOrder|
        invariant 0 <= k <= |agentTabOrder|
        invariant out == Named(agentTabOrder[..k], listed)
        invariant forall id :: id in seen <==> id in agentTabOrder[..k] && Find(listed, id) < |listed|
      {
        var id := agentTabOrder[k];
        assert agentTabOrder[..k + 1][..k] == agentTabOrder[..k];
        NamedStep(agentTabOrder[..k + 1], listed);
        var at := Find(listed, id);
        if at < |listed| {
          out := out + [listed[at]];
          seen := seen + {id};
        }
        k := k + 1;
      }
      assert agentTabOrder[..k] == agentTabOrder;
      ghost var named := out;
      assert named + [] == named;
      k := 0;
      while k < |listed|
        invariant 0 <= k <= |listed|
        invariant out == named + Where(listed[..k], (a: AgentStub) => a.id !in order)
      {
        assert listed[..k + 1] == listed[..k] + [listed[k]];
        KeepSnoc(listed[..k], listed[k], (a: AgentStub) => a.id !in order);
        ListedIsFound(listed, k);
        if listed[k].id !in seen {
          out := out + [listed[k]];
        }
        k := k + 1;
      }
      assert listed[..k] == listed;
      if Distinct(agentTabOrder) && Distinct(AgentIds(tabs.agents)) { TabBarInOrder(agentTabOrder, tabs); }
    }

    method DropAgentOnTile(draggedId: Id, droppedOnId: Id)
      modifies `agentTabOrder
      ensures View() == AppModel.DropAgentOnTile(old(View()), draggedId, droppedOnId)
    {
      hide Listed;
      hide OrderedAgents;
      hide TabOrder.Ordered;
      hide TabOrder.Move;
      hide Trim;
      hide AgentIds;
      OrderedIds(agentTabOrder, AgentsForSelectedTask(tabs));
      ListedIs(tabs);
      var agentId, tileId := Trim(draggedId), Trim(droppedOnId);
      if agentId == "" || tileId == "" || agentId == tileId { return; }
      var shown := OrderedAgentsForSelectedTask();
      var ids := AgentIds(shown);
      if agentId !in ids {
        ids := ids + [agentId];
      }
      if tileId !in ids { return; }
      var from, to := IndexOf(ids, agentId), IndexOf(ids, tileId);
      ids := TabOrder.Move(ids, from, to);
      agentTabOrder := ids;
    }

    method ToggleDir(path: string, h: Host)
      modifies `dirs, `trace
      ensures View() == AppModel.ToggleDir(old(View()), path, h)
    {
      hide Framed;
      hide Stays;
      hide Mon;
      hide Rpcs;
      if path in dirs.expanded {
        dirs := dirs.(expanded := dirs.expanded - {path});
        return;
      }
      if path !in dirs.children {
        if catalog.workspaceId.None? || conn.session.None? { return; }
        trace := trace + [Sent(FilesTree(path))];
        if h.tree.None? { return; }
        dirs := dirs.(children := dirs.children[path := h.tree.value]);
      }
      dirs := dirs.(expanded := dirs.expanded + {path});
    }

    // ---------------------------------------------------------- one event

    method HandleConnection(e: Event, h: Host)
      requires AboutConnection(e)
      modifies `conn, `catalog, `tabs, `inbox, `dirs, `trace
      ensures View() == ConnectionStep(old(View()), e, h)
    {
      hide View;
      hide AppModel.TickDiscovery;
      hide AppModel.RequestRetry;
      hide AppModel.Reconnected;
      hide AppModel.GoingAway;
      match e {
        case Discover => TickDiscovery(h);
        case Retry => RequestRetry();
        case WsReconnected => Reconnected(h);
        case HostGoingAway(hostId) => GoingAway(hostId);
      }
    }

    method HandleTab(e: Event, h: Host)
      requires AboutTabs(e)
      modifies `tabs, `inbox, `dirs, `catalog, `trace
      ensures View() == TabStep(old(View()), e, h)
    {
      hide View;
      hide Quiet;
      hide CanvasFrame;
      hide AppModel.OpenTask;
      hide AppModel.SwitchTaskTab;
      hide AppModel.CloseTaskTab;
      hide AppModel.SelectAgent;
      hide AppModel.CreateTask;
      hide AppModel.CreateAgent;
      hide CreateChild;
      hide AppModel.RemoveAgent;
      hide Framed;
      hide Stays;
      if e.Open? {
        OpenTask(e.id, h);
      } else if e.Switch? {
        SwitchTaskTab(e.id, h);
      } else if e.Close? {
        CloseTaskTab(e.id, h);
      } else if e.Select? {
        SelectAgent(e.id, h);
      } else if e.NewTask? {
        CreateTask(e.title, h);
      } else if e.NewAgent? {
        CreateAgent(e.pickerReady, h);
      } else if e.NewChild? {
        CreateChildConversation(e.pickerReady, h);
      } else {
        RemoveAgent(e.id, h);
      }
    }

    method HandleTalk(e: Event, h: Host)
      requires AboutTalk(e)
      modifies `composerText, `cancel, `tabs, `search, `trace
      ensures View() == TalkStep(old(View()), e, h)
    {
      hide View;
      hide ModEnter;
      hide AppModel.SendComposer;
      hide AppModel.SteerComposer;
      hide AppModel.CancelRunningAgent;
      hide AppModel.WorkerDone;
      hide AppModel.TickRpc;
      hide AppModel.RespondApproval;
      hide Framed;
      hide Stays;
      match e {
        case Enter => OnComposerModEnter(h);
        case Send => SendComposer(h);
        case Steer => SteerComposer(h);
        case Stop => CancelRunningAgent();
        case WorkerReply => WorkerDone(h);
        case Tick => TickRpc(h);
        case Respond(decision) => RespondApproval(decision, h);
      }
    }

    method HandleSearch(e: Event, h: Host)
      requires AboutSearch(e)
      modifies `search, `tabs, `inbox, `dirs, `catalog, `trace
      ensures View() == SearchStep(old(View()), e, h)
    {
      hide View;
      hide EditSearch;
      hide AppModel.SubmitSearch;
      hide SearchEnter;
      hide AppModel.ActivateSearchResult;
      hide AppModel.DismissSearch;
      hide Framed;
      hide Stays;
      match e {
        case SearchEdit(text) => MarkSearchEdited(text);
        case SearchSubmit => SubmitSearch(h);
        case SearchReturn(artifactTask) => OnSearchEnter(artifactTask, h);
        case SearchPick(index, artifactTask) => ActivateSearchResult(index, artifactTask, h);
        case SearchDismiss => DismissSearch();
      }
    }

    method HandleGate(e: Event, h: Host)
      requires AboutGates(e)
      modifies `gates, `catalog, `tabs, `inbox, `trace
      ensures View() == GateStep(old(View()), e, h)
    {
      hide View;
      hide RequestGate;
      hide WithdrawGate;
      hide ConfirmGate;
      match e {
        case Request(g) =>
          match g {
            case SyncImport => RequestSyncImport();
            case SyncPull => RequestSyncPull();
            case WorktreeGc => RequestWorktreeGc();
            case PresetDelete => RequestDeleteUserPreset();
          }
        case Withdraw(g) =>
          match g {
            case SyncImport => CancelSyncImport();
            case SyncPull => CancelSyncPull();
            case WorktreeGc => CancelWorktreeGc();
            case PresetDelete => CancelDeleteUserPreset();
          }
        case Confirm(g, picked) =>
          match g {
            case SyncImport => ConfirmSyncImport(picked, h);
            case SyncPull => ConfirmSyncPull(h);
            case WorktreeGc => ConfirmWorktreeGc(h);
            case PresetDelete => ConfirmDeleteUserPreset(h);
          }
      }
    }

    method ReceiveDelivery(item: InboxItem)
      modifies `inbox
      ensures View() == Receive(old(View()), item)
    {
      hide Merge;
      hide Framed;
      hide Stays;
      MergeInboxItem(item);
    }

    method HandleAgents(e: Event, h: Host)
      requires AboutAgents(e)
      modifies `tabs, `inbox, `agentTabOrder, `dirs, `trace
      ensures View() == AgentsStep(old(View()), e, h)
    {
      hide View;
      hide AppModel.ApprovalAsked;
      hide AppModel.StatusChanged;
      hide Receive;
      hide Deliver;
      hide AppModel.DropAgentOnTile;
      hide AppModel.ToggleDir;
      hide SwitchAgent;
      hide UpdateRole;
      hide Framed;
      hide Stays;
      match e {
        case WsApproval(approvalId, agentId, taskId) => ApprovalAsked(approvalId, agentId, taskId);
        case WsStatus(taskId, agentId, status) => StatusChanged(taskId, agentId, status);
        case WsDelivered(from, to, messageId) => ReceiveDelivery(InboxItem(from, to, messageId, ""));
        case DeliverTo(target, text, live) => DeliverToSelectedTarget(target, text, live, h);
        case Drag(agentId, tileId) => DropAgentOnTile(agentId, tileId);
        case Toggle(path) => ToggleDir(path, h);
        case SwitchModel(ready) => SwitchSelectedAgent(ready, h);
        case PickRole(changed) => UpdateSelectedAgentRole(changed, h);
      }
    }

    method HandleForm(e: Event, h: Host)
      requires AboutForms(e)
      modifies `gates, `catalog, `trace
      ensures View() == FormStep(old(View()), e, h)
    {
      hide View;
      hide AddWorkspace;
      hide RenameTask;
      hide AppModel.ArchiveTask;
      hide AppModel.ExportSync;
      hide PushSync;
      hide CreatePreset;
      hide SavePreset;
      hide FormFrame;
      match e {
        case NewWorkspace(path) => SetWorkspacePath(path, h);
        case Rename(id, title) => CommitRename(id, title, h);
        case Archive(id) => ArchiveTask(id, h);
        case Export(anyTask) => ExportSync(anyTask, h);
        case Push => RequestSyncPush(h);
        case NewPreset(valid) => CreateUserPreset(valid, h);
        case EditPreset(valid) => SaveUserPreset(valid, h);
      }
    }

    method ShowScreen(target: Screen)
      modifies `tabs
      ensures View() == old(View()).(tabs := old(View()).tabs.(screen := target))
    {
      tabs := tabs.(screen := target);
    }

    method SetComposerText(text: string)
      modifies `composerText
      ensures View() == old(View()).(composer := text)
    {
      composerText := text;
    }

    method SetSyncPeerUrl(url: string)
      modifies `catalog
      ensures View() == old(View()).(catalog := old(View()).catalog.(peerUrl := url))
    {
      catalog := catalog.(peerUrl := url);
    }

    method SetNewTaskPreset(preset: Option<Id>)
      modifies `catalog
      ensures View() == old(View()).(catalog := PresetPicked(old(View()).catalog, preset))
    {
      if preset.Some? && (preset.value in BUILTIN_PRESETS || preset.value in catalog.presets) {
        catalog := catalog.(newTaskPreset := preset);
      } else {
        catalog := catalog.(newTaskPreset := None);
      }
    }

    method AdvanceClock(ms: nat)
      modifies `now
      ensures View() == old(View()).(now := old(View()).now + ms)
    {
      now := now + ms;
    }

    method HandleField(e: Event)
      requires e.Type? || e.SetPeerUrl? || e.PickPreset?
      modifies `composerText, `catalog
      ensures View() == DraftStep(old(View()), e)
    {
      hide View;
      hide PresetPicked;
      match e {
        case Type(text) => SetComposerText(text);
        case SetPeerUrl(url) => SetSyncPeerUrl(url);
        case PickPreset(preset) => SetNewTaskPreset(preset);
      }
    }

    method HandleDraft(e: Event)
      modifies `tabs, `composerText, `catalog, `now
      ensures View() == DraftStep(old(View()), e)
    {
      hide View;
      hide PresetPicked;
      if e.ShowTasks? {
        ShowScreen(TasksScreen);
      } else if e.ShowHost? {
        ShowScreen(HostScreen);
      } else if e.PassTime? {
        AdvanceClock(e.ms);
      } else if e.Type? || e.SetPeerUrl? || e.PickPreset? {
        HandleField(e);
      }
    }

    /** Whatever happens next, the object does what the model says and stays consistent. */
    method Handle(e: Event, h: Host)
      requires Inv(View())
      modifies this
      ensures View() == Step(old(View()), e, h)
      ensures Inv(View())
    {
      hide View;
      hide Inv;
      hide Step;
      hide FamilyOf;
      hide FormFrame;
      ghost var s := View();
      StepKeeps(s, e, h);
      if AboutConnection(e) {
        ConnectionStepIs(s, e, h);
        HandleConnection(e, h);
      } else if AboutTabs(e) {
        TabsStepIs(s, e, h);
        HandleTab(e, h);
      } else if AboutTalk(e) {
        TalkStepIs(s, e, h);
        HandleTalk(e, h);
      } else if AboutSearch(e) {
        SearchStepIs(s, e, h);
        HandleSearch(e, h);
      } else if AboutGates(e) {
        GatesStepIs(s, e, h);
        HandleGate(e, h);
      } else if AboutAgents(e) {
        AgentsStepIs(s, e, h);
        HandleAgents(e, h);
      } else if AboutForms(e) {
        FormsStepIs(s, e, h);
        HandleForm(e, h);
      } else {
        DraftStepIs(s, e, h);
        HandleDraft(e);
      }
    }
  }

  // ------------------------------------------------------------ facts the loops need

  lemma MergeAllSnoc(items: seq<InboxItem>, arrivals: seq<InboxItem>, item: InboxItem)
    ensures MergeAll(items, arrivals + [item]) == Merge(MergeAll(items, arrivals), item)
  {
    assert (arrivals + [item])[..|arrivals|] == arrivals;
  }

  lemma DeletableIsSome(preset: Option<Id>)
    requires Deletable(preset)
    ensures preset.Some?
  {
  }

  lemma NothingToRemember(t: Tabs)
    requires t.selectedAgent.None?
    ensures Remember(t) == t
  {
  }

  lemma {:induction false} WithoutIsOrphaned(agents: seq<AgentStub>, id: Id)
    ensures var kept := Where(agents, (a: AgentStub) => a.id != id);
            && |Without(agents, id)| == |kept|
            && forall k :: 0 <= k < |kept| ==> Without(agents, id)[k] == Orphan(kept[k], id)
  {
    if agents != [] { WithoutIsOrphaned(agents[..|agents| - 1], id); }
  }

  lemma NothingNamed(listed: seq<AgentStub>)
    ensures Named([], listed) == [] && forall keep: AgentStub -> bool :: Where([], keep) == []
  {
  }

  lemma ListedIsFound(listed: seq<AgentStub>, k: nat)
    requires k < |listed|
    ensures Find(listed, listed[k].id) < |listed|
  {
  }

  lemma ListedIs(t: Tabs)
    ensures Listed(t) == AgentIds(AgentsForSelectedTask(t))
  {
  }
}
