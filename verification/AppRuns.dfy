/** What holds in every state the client can reach and of every trace it can leave,
    whatever the user does and whatever the host answers. */
module AppRuns {
  import opened Basics
  import opened Text
  import opened Agents
  import opened A2a
  import opened Traces
  import opened AppModel

  // ------------------------------------------------------------ the invariants

  /** Online means a session and its token; offline means nothing of the kind. */
  ghost predicate ConnectionOk(c: Connection) {
    && (c.status == Online ==> c.session.Some? && c.token == Some(c.session.value.token))
    && (c.status == Offline ==> c.session.None? && c.token.None? && c.ws.None?)
  }

  ghost predicate TabsOk(t: Tabs) {
    && Distinct(t.open)
    && (t.selectedTask.Some? ==> t.selectedTask.value in t.open)
    && (t.screen == Canvas ==> t.selectedTask.Some?)
    && (forall k :: k in t.remembered ==> k in t.open)
    && (forall k :: k in t.approvals ==> t.approvals[k].agentId == k && t.approvals[k].taskId in t.open)
  }

  function DoneIds(results: seq<CancelDone>): (r: seq<Id>)
    ensures |r| == |results|
    ensures forall k :: 0 <= k < |results| ==> r[k] == results[k].agentId
  {
    seq(|results|, k requires 0 <= k < |results| => results[k].agentId)
  }

  /** The cancels under way: running workers, then queued results. */
  function Outstanding(c: Cancel): seq<Id> {
    c.workers + DoneIds(c.results)
  }

  /** A cancel is pending exactly while its one worker or queued result is outstanding. */
  ghost predicate CancelIsOk(s: App) {
    && Outstanding(s.cancel) == (if s.cancel.pending.Some? then [s.cancel.pending.value] else [])
    && Mon(s.trace).cancelling == s.cancel.pending
  }

  ghost predicate SearchOk(s: App) {
    && (PopupOpen(s.search) <==> s.search.ran)
    && (s.search.ran <==> s.search.lastQ.Some?)
    && Mon(s.trace).lastQuery == s.search.lastQ
    && (s.search.editedAt.Some? ==> Mon(s.trace).lastEdit == s.search.editedAt)
  }

  ghost predicate GatesOk(s: App) {
    forall g :: Has(s.gates, g) ==> Has(Mon(s.trace).licensed, g)
  }

  ghost predicate DirsOk(d: Dirs) {
    forall p :: p in d.expanded ==> p in d.children
  }

  ghost predicate Inv(s: App) {
    && ConnectionOk(s.conn)
    && TabsOk(s.tabs)
    && CancelIsOk(s)
    && SearchOk(s)
    && GatesOk(s)
    && DirsOk(s.dirs)
    && IdsOnce(s.inbox)
    && Lawful(s.trace)
  }

  // ------------------------------------------------------------ steps that stay out of the way

  /** Everything outside tabs, inbox, directories and catalog is as before, and the monitor
      saw nothing. */
  ghost predicate Untouched(s: App, r: App) {
    && r == s.(tabs := r.tabs, inbox := r.inbox, dirs := r.dirs, catalog := r.catalog, trace := r.trace)
    && Mon(r.trace) == Mon(s.trace)
  }

  lemma UntouchedKeeps(s: App, r: App)
    requires Inv(s) && Untouched(s, r)
    requires TabsOk(r.tabs) && DirsOk(r.dirs) && IdsOnce(r.inbox)
    ensures Inv(r)
  {
  }

  lemma RememberOk(t: Tabs)
    requires TabsOk(t)
    ensures TabsOk(Remember(t))
  {
  }

  lemma OpenedOk(t: Tabs, id: Id)
    requires TabsOk(t)
    ensures TabsOk(Opened(t, id))
  {
    RememberOk(t);
    if id !in t.open { DistinctConcat(t.open, [id]); }
  }

  lemma OpenTaskKeeps(s: App, id: Id, h: Host)
    requires Inv(s)
    ensures Inv(OpenTask(s, id, h)) && Untouched(s, OpenTask(s, id, h))
  {
    hide OpenTask;
    OpenedOk(s.tabs, id);
    UntouchedKeeps(s, OpenTask(s, id, h));
  }

  lemma LoadSelectedAgentKeeps(s: App, h: Host)
    requires Inv(s)
    ensures Inv(LoadSelectedAgent(s, h)) && Untouched(s, LoadSelectedAgent(s, h))
  {
    hide LoadSelectedAgent;
    UntouchedKeeps(s, LoadSelectedAgent(s, h));
  }

  lemma ReloadCanvasKeeps(s: App, task: Id, h: Host)
    requires Inv(s)
    ensures Inv(ReloadCanvas(s, task, h)) && Untouched(s, ReloadCanvas(s, task, h))
  {
    hide ReloadCanvas;
    UntouchedKeeps(s, ReloadCanvas(s, task, h));
  }

  lemma RefreshCatalogKeeps(s: App, h: Host)
    requires Inv(s)
    ensures Inv(RefreshCatalog(s, h)) && Untouched(s, RefreshCatalog(s, h))
  {
    hide RefreshCatalog;
    UntouchedKeeps(s, RefreshCatalog(s, h));
  }

  lemma ReloadAgentsKeeps(s: App, task: Id, h: Host)
    requires Inv(s)
    ensures Inv(ReloadAgents(s, task, h)) && Untouched(s, ReloadAgents(s, task, h))
  {
    hide ReloadAgents;
    UntouchedKeeps(s, ReloadAgents(s, task, h));
  }

  /** An RPC the monitor does not watch. */
  predicate Plain(rpc: Rpc) {
    !rpc.Guarded? && !rpc.SearchQuery? && !rpc.AgentSend? && !rpc.AgentSteer?
  }

  lemma EmitKeeps(s: App, rpc: Rpc)
    requires Inv(s) && Plain(rpc)
    ensures Inv(Emit(s, rpc)) && Untouched(s, Emit(s, rpc))
  {
    hide Note;
    NoteIs(s, Sent(rpc));
    UntouchedKeeps(s, Emit(s, rpc));
  }

  lemma NoteIs(s: App, o: Obs)
    ensures Note(s, o) == s.(trace := s.trace + [o])
  {
  }

  // ------------------------------------------------------------ tabs

  lemma ClosedOk(t: Tabs, id: Id)
    requires TabsOk(t)
    ensures TabsOk(Closed(t, id).(selectedTask := None, screen := TasksScreen))
    ensures t.selectedTask != Some(id) ==> TabsOk(Closed(t, id))
    ensures forall x :: x in Closed(t, id).open <==> x in t.open && x != id
  {
    WhereDistinct(t.open, o => o != id);
    forall x ensures x in Closed(t, id).open <==> x in t.open && x != id {
      WhereMembers(t.open, o => o != id, x);
    }
  }

  lemma CloseKeeps(s: App, id: Id, h: Host)
    requires Inv(s)
    ensures Inv(CloseTaskTab(s, id, h))
  {
    hide OpenTask;
    ClosedOk(s.tabs, id);
    var t := Closed(s.tabs, id);
    if s.tabs.selectedTask != Some(id) {
      UntouchedKeeps(s, s.(tabs := t));
    } else if t.open != [] {
      OpenLastOk(t);
      var s' := s.(tabs := t.(selectedTask := None));
      UntouchedKeeps(s, OpenTask(s', Last(t.open), h));
    } else {
      UntouchedKeeps(s, CloseTaskTab(s, id, h));
    }
  }

  /** Opening restores consistency even if the canvas showed no task. */
  lemma OpenLastOk(t: Tabs)
    requires t.open != [] && TabsOk(t.(selectedTask := None, screen := TasksScreen))
    ensures TabsOk(Opened(t.(selectedTask := None), Last(t.open)))
  {
  }

  lemma RemoveAgentKeeps(s: App, id: Id, h: Host)
    requires Inv(s)
    ensures Inv(RemoveAgent(s, id, h))
  {
    hide LoadSelectedAgent;
    var t := s.tabs.(agents := Without(s.tabs.agents, id));
    var s1 := s.(tabs := t, inbox := WithoutMentions(s.inbox, id));
    FilteredInboxOnce(s.inbox, id);
    UntouchedKeeps(s, s1);
    if t.selectedAgent == Some(id) {
      var t2 := t.(selectedAgent := FirstId(AgentsForSelectedTask(t)));
      RememberOk(t2);
      var s2 := s1.(tabs := Remember(t2));
      UntouchedKeeps(s1, s2);
      if t2.selectedAgent.Some? { LoadSelectedAgentKeeps(s2, h); }
    }
  }

  lemma {:induction false} FilteredInboxOnce(inbox: seq<InboxItem>, id: Id)
    requires IdsOnce(inbox)
    ensures IdsOnce(WithoutMentions(inbox, id))
    ensures forall m :: m in WithoutMentions(inbox, id) <==> m in inbox && m.toAgentId != id && m.fromAgentId != id
  {
    if inbox != [] {
      var front := inbox[..|inbox| - 1];
      assert inbox == front + [Last(inbox)];
      FilteredInboxOnce(front, id);
      var kept := WithoutMentions(front, id);
      forall k | 0 <= k < |kept| ensures kept[k].messageId == Last(inbox).messageId ==> kept[k].messageId == "" {
        assert kept[k] in front;
        var j :| 0 <= j < |front| && front[j] == kept[k];
        assert inbox[j] == kept[k] && inbox[|inbox| - 1] == Last(inbox);
      }
    }
  }

  lemma AddedKeeps(s: App, stub: AgentStub, h: Host)
    requires Inv(s)
    ensures Inv(Added(s, stub, h)) && Untouched(s, Added(s, stub, h))
  {
    hide LoadSelectedAgent;
    var t0 := s.tabs.(selectedAgent := Some(stub.id));
    RememberOk(t0);
    var t := Remember(t0);
    var s1 := s.(tabs := t.(agents := t.agents + [stub]));
    UntouchedKeeps(s, s1);
    LoadSelectedAgentKeeps(s1, h);
  }

  lemma SelectKeeps(s: App, id: Id, h: Host)
    requires Inv(s)
    ensures Inv(SelectAgent(s, id, h))
  {
    hide LoadSelectedAgent;
    var t := s.tabs.(selectedAgent := Some(id));
    RememberOk(t);
    var s1 := s.(tabs := Remember(t));
    UntouchedKeeps(s, s1);
    LoadSelectedAgentKeeps(s1, h);
  }

  lemma NewTaskKeeps(s: App, title: string, h: Host)
    requires Inv(s)
    ensures Inv(CreateTask(s, title, h))
  {
    hide Inv;
    hide OpenTask;
    hide RefreshCatalog;
    hide Emit;
    hide Trim;
    var rpc := TaskCreate(Trim(title));
    EmitKeeps(s, rpc);
    var sent := Emit(s, rpc);
    var taken := sent.(catalog := sent.catalog.(newTaskPreset := None));
    PlainChangeKeeps(sent, taken);
    RefreshCatalogKeeps(taken, h);
    if h.task.Some? { OpenTaskKeeps(RefreshCatalog(taken, h), h.task.value, h); }
  }

  lemma NewAgentKeeps(s: App, ready: bool, h: Host)
    requires Inv(s)
    ensures Inv(CreateAgent(s, ready, h))
  {
    hide Inv;
    hide Added;
    hide Emit;
    if s.tabs.selectedTask.Some? {
      var rpc := AgentCreate(s.tabs.selectedTask.value);
      EmitKeeps(s, rpc);
      if h.created.Some? { AddedKeeps(Emit(s, rpc), h.created.value, h); }
    }
  }

  lemma NewChildKeeps(s: App, ready: bool, h: Host)
    requires Inv(s)
    ensures Inv(CreateChild(s, ready, h))
  {
    hide Inv;
    hide Added;
    hide Emit;
    hide SelectedAgent;
    if s.tabs.selectedTask.Some? && SelectedAgent(s.tabs).Some? {
      var rpc := AgentCreateChild(s.tabs.selectedTask.value, SelectedAgent(s.tabs).value.id);
      EmitKeeps(s, rpc);
      if h.created.Some? { AddedKeeps(Emit(s, rpc), h.created.value, h); }
    }
  }

  // ------------------------------------------------------------ connection

  lemma ConnectionChangeKeeps(s: App, r: App)
    requires Inv(s) && ConnectionOk(r.conn) && r == s.(conn := r.conn, catalog := r.catalog)
    ensures Inv(r)
  {
  }

  lemma DiscoverKeeps(s: App, h: Host)
    requires Inv(s)
    ensures Inv(TickDiscovery(s, h))
  {
    hide ApplyDiscovery;
    if s.conn.pendingDiscover {
      var s1 := s.(conn := s.conn.(pendingDiscover := false));
      ConnectionChangeKeeps(s, s1);
      DiscoveryKeeps(s1, h);
    } else {
      var s1 := Emit(s, Keepalive);
      EmitKeeps(s, Keepalive);
      ConnectionChangeKeeps(s1, GoOffline(s1));
      ConnectionChangeKeeps(s1, s1.(conn := s1.conn.(lastRpc := Some(s1.now))));
    }
  }

  lemma ReconnectedKeeps(s: App, h: Host)
    requires Inv(s)
    ensures Inv(Reconnected(s, h))
  {
    hide ReloadCanvas;
    hide Inv;
    if s.tabs.selectedTask.Some? { ReloadCanvasKeeps(s, s.tabs.selectedTask.value, h); }
  }

  lemma DiscoveryKeeps(s: App, h: Host)
    requires Inv(s)
    ensures Inv(ApplyDiscovery(s, h))
  {
    hide ReloadCanvas;
    hide RefreshCatalog;
    var s1 := s.(conn := s.conn.(status := Connecting, token := None));
    ConnectionChangeKeeps(s, s1);
    ConnectionChangeKeeps(s1, GoOffline(s1));
    EmitKeeps(s1, Connect);
    var s2 := Emit(s1, Connect);
    ConnectionChangeKeeps(s2, GoOffline(s2));
    if h.connect.Some? {
      var session := h.connect.value;
      var s3 := s2.(conn := s2.conn.(status := Online, session := Some(session), token := Some(session.token),
                                     ws := WsUrl(session), lastRpc := Some(s.now)));
      ConnectionChangeKeeps(s2, s3);
      RefreshCatalogKeeps(s3, h);
      var s4 := RefreshCatalog(s3, h);
      if s4.tabs.selectedTask.Some? { ReloadCanvasKeeps(s4, s4.tabs.selectedTask.value, h); }
    }
  }

  // ------------------------------------------------------------ cancelling and sending

  /** Sending and steering only happen while no cancel is pending. */
  lemma TalkKeeps(s: App, rpc: Rpc, r: App)
    requires Inv(s) && s.cancel.pending.None? && (rpc.AgentSend? || rpc.AgentSteer?)
    requires r == Emit(s, rpc) || r == Emit(s, rpc).(composer := "")
    ensures Inv(r)
  {
    hide Mon;
    hide Rpcs;
  }

  lemma SendKeeps(s: App, h: Host)
    requires Inv(s)
    ensures Inv(SendComposer(s, h))
  {
    hide Inv;
    hide Emit;
    hide Trim;
    hide SelectedAgent;
    if SendComposer(s, h) != s {
      TalkKeeps(s, AgentSend(SelectedAgent(s.tabs).value.id, Trim(s.composer)), SendComposer(s, h));
    }
  }

  lemma SteerKeeps(s: App, h: Host)
    requires Inv(s)
    ensures Inv(SteerComposer(s, h))
  {
    hide Inv;
    hide Emit;
    hide Trim;
    hide SelectedAgent;
    if SteerComposer(s, h) != s {
      TalkKeeps(s, AgentSteer(SelectedAgent(s.tabs).value.id, Trim(s.composer)), SteerComposer(s, h));
    }
  }

  lemma StopKeeps(s: App)
    requires Inv(s)
    ensures Inv(CancelRunningAgent(s))
  {
    hide SelectedAgent;
    hide IsRunning;
    if CancelRunningAgent(s) != s {
      assert s.cancel.workers == [] && s.cancel.results == [];
    }
  }

  lemma WorkerKeeps(s: App, h: Host)
    requires Inv(s)
    ensures Inv(WorkerDone(s, h))
  {
    if s.cancel.workers != [] {
      assert Outstanding(s.cancel)[0] == s.cancel.workers[0];
      assert s.cancel.workers == [s.cancel.pending.value] && s.cancel.results == [];
    }
  }

  /** Inv, but for the one result that is just being applied. */
  lemma ApplyCancelKeeps(s: App, done: CancelDone)
    requires ConnectionOk(s.conn) && TabsOk(s.tabs) && SearchOk(s) && GatesOk(s) && DirsOk(s.dirs)
             && IdsOnce(s.inbox) && Lawful(s.trace)
    requires s.cancel == Cancel(Some(done.agentId), [], []) && Mon(s.trace).cancelling == Some(done.agentId)
    ensures Inv(ApplyCancel(s, done))
    ensures ApplyCancel(s, done).search == s.search && ApplyCancel(s, done).cancel == Cancel(None, [], [])
  {
    hide FindEither;
  }

  /** A tick keeps the invariants and, for any answer, ends the cancel whose result is queued. */
  lemma TickKeeps(s: App, h: Host)
    requires Inv(s)
    ensures Inv(TickRpc(s, h))
    ensures TickRpc(s, h).cancel == if s.cancel.results != [] then Cancel(None, [], []) else s.cancel
  {
    hide ApplyCancel;
    var drained := s.(cancel := s.cancel.(results := []));
    var applied := ApplyCancels(drained, s.cancel.results);
    if s.cancel.results == [] {
      assert applied == s;
    } else {
      assert Outstanding(s.cancel)[|s.cancel.workers|] == s.cancel.results[0].agentId;
      assert s.cancel.workers == [] && |s.cancel.results| == 1;
      var done := s.cancel.results[0];
      assert s.cancel.results == [done] && s.cancel.results[..0] == [];
      assert applied == ApplyCancel(ApplyCancels(drained, []), done);
      ApplyCancelKeeps(drained, s.cancel.results[0]);
    }
    DebounceKeeps(applied, h);
    DebounceKeepsCancel(applied, h);
  }

  lemma DebounceKeepsCancel(s: App, h: Host)
    ensures TickSearchDebounce(s, h).cancel == s.cancel
  {
    hide Trim;
    hide Mon;
    hide Rpcs;
  }

  // ------------------------------------------------------------ search

  /** Only the search and the trace changed, and nothing else the monitor knows. */
  lemma SearchChangeKeeps(s: App, r: App)
    requires Inv(s) && r == s.(search := r.search, trace := r.trace) && SearchOk(r) && Lawful(r.trace)
    requires var m, n := Mon(s.trace), Mon(r.trace); n == m.(lastQuery := n.lastQuery, lastEdit := n.lastEdit)
    ensures Inv(r)
  {
    hide Mon;
  }

  lemma SubmitKeeps(s: App, h: Host)
    requires Inv(s)
    ensures Inv(SubmitSearch(s, h))
  {
    hide Framed;
    hide Stays;
    hide Trim;
    hide Mon;
    hide Rpcs;
    SearchChangeKeeps(s, SubmitSearch(s, h));
  }

  /** The state after a due debounce, the edit taken away. */
  function Taken(s: App): App {
    var noted := Note(s, Debounced(s.now));
    noted.(search := noted.search.(editedAt := None))
  }

  lemma TakenKeeps(s: App)
    requires Inv(s) && s.search.editedAt.Some? && s.search.editedAt.value + SEARCH_DEBOUNCE_MS <= s.now
    ensures Inv(Taken(s))
  {
    hide Mon;
    hide Rpcs;
    SearchChangeKeeps(s, Taken(s));
  }

  lemma DebounceKeeps(s: App, h: Host)
    requires Inv(s)
    ensures Inv(TickSearchDebounce(s, h))
  {
    hide Inv;
    hide Framed;
    hide Stays;
    hide Mon;
    hide Rpcs;
    hide SubmitSearch;
    if s.search.editedAt.Some? && s.search.editedAt.value + SEARCH_DEBOUNCE_MS <= s.now {
      TakenKeeps(s);
      SubmitKeeps(Taken(s), h);
      SubmitForgetsEdit(Note(s, Debounced(s.now)), h);
    }
  }

  lemma SubmitForgetsEdit(s: App, h: Host)
    ensures SubmitSearch(s, h) == SubmitSearch(s.(search := s.search.(editedAt := None)), h)
  {
    hide Framed;
    hide Stays;
    hide Trim;
    hide Mon;
    hide Rpcs;
  }

  lemma DismissKeeps(s: App)
    requires Inv(s)
    ensures Inv(DismissSearch(s))
  {
    hide Framed;
    hide Stays;
    hide Mon;
    hide Rpcs;
    SearchChangeKeeps(s, DismissSearch(s));
  }

  lemma EditKeeps(s: App, text: string)
    requires Inv(s)
    ensures Inv(EditSearch(s, text))
  {
    hide Framed;
    hide Stays;
    hide Mon;
    hide Rpcs;
    SearchChangeKeeps(s, EditSearch(s, text));
  }

  lemma PickedWorkspaceKeeps(s: App, id: Id)
    requires Inv(s)
    ensures Inv(s.(catalog := s.catalog.(workspaceId := Some(id))))
  {
    hide Mon;
    UntouchedKeeps(s, s.(catalog := s.catalog.(workspaceId := Some(id))));
  }

  lemma ActivateKeeps(s: App, index: nat, artifactTask: Option<Id>, h: Host)
    requires Inv(s)
    ensures Inv(ActivateSearchResult(s, index, artifactTask, h))
  {
    hide Inv;
    hide OpenTask;
    hide DismissSearch;
    if index < |s.search.items| {
      var item := s.search.items[index];
      match item.kind {
        case TaskHit =>
          OpenTaskKeeps(s, item.id, h);
          DismissKeeps(OpenTask(s, item.id, h));
        case ArtifactHit =>
          DismissKeeps(s);
          if artifactTask.Some? {
            OpenTaskKeeps(s, artifactTask.value, h);
            DismissKeeps(OpenTask(s, artifactTask.value, h));
          }
        case WorkspaceHit =>
          PickedWorkspaceKeeps(s, item.id);
          DismissKeeps(s.(catalog := s.catalog.(workspaceId := Some(item.id))));
        case OtherHit => DismissKeeps(s);
      }
    }
  }

  lemma ReturnKeeps(s: App, artifactTask: Option<Id>, h: Host)
    requires Inv(s)
    ensures Inv(SearchEnter(s, artifactTask, h))
  {
    hide Inv;
    hide SubmitSearch;
    hide ActivateSearchResult;
    ActivateKeeps(s, 0, artifactTask, h);
    SubmitKeeps(s, h);
    ActivateKeeps(SubmitSearch(s, h), 0, artifactTask, h);
  }

  // ------------------------------------------------------------ guarded commands

  /** Everything but the gates and the trace is as before, and of the monitor only what it
      knows about gates changed. */
  lemma GateChangeKeeps(s: App, r: App)
    requires Inv(s) && r == s.(gates := r.gates, trace := r.trace) && GatesOk(r) && Lawful(r.trace)
    requires var m, n := Mon(s.trace), Mon(r.trace);
             n == m.(licensed := n.licensed, spendable := n.spendable, guarded := n.guarded)
    ensures Inv(r)
  {
    hide Mon;
  }

  lemma RequestKeeps(s: App, g: Gate)
    requires Inv(s)
    ensures Inv(RequestGate(s, g))
  {
    hide Mon;
    hide Rpcs;
    hide Offered;
    hide Prepared;
    GateChangeKeeps(s, RequestGate(s, g));
  }

  lemma WithdrawKeeps(s: App, g: Gate)
    requires Inv(s)
    ensures Inv(WithdrawGate(s, g))
  {
    hide Mon;
    hide Rpcs;
    GateChangeKeeps(s, WithdrawGate(s, g));
  }

  lemma AfterGuardedKeeps(s: App, g: Gate, h: Host)
    requires Inv(s)
    ensures Inv(AfterGuarded(s, g, h))
  {
    hide RefreshCatalog;
    hide ReloadAgents;
    hide LoadSelectedAgent;
    match g {
      case SyncImport =>
        RefreshCatalogKeeps(s, h);
        var s1 := RefreshCatalog(s, h);
        if s1.tabs.selectedTask.Some? {
          ReloadAgentsKeeps(s1, s1.tabs.selectedTask.value, h);
          LoadSelectedAgentKeeps(ReloadAgents(s1, s1.tabs.selectedTask.value, h), h);
        }
      case SyncPull => RefreshCatalogKeeps(s, h);
      case WorktreeGc =>
      case PresetDelete => UntouchedKeeps(s, AfterGuarded(s, g, h));
    }
  }

  lemma ConfirmKeeps(s: App, g: Gate, picked: bool, h: Host)
    requires Inv(s)
    ensures Inv(ConfirmGate(s, g, picked, h))
  {
    hide AfterGuarded;
    hide Offered;
    hide Prepared;
    hide Mon;
    hide Rpcs;
    if Has(s.gates, g) {
      var s1 := Note(CloseGate(s, g), Confirmed(g));
      GateChangeKeeps(s, s1);
      var s2 := Emit(s1, Guarded(g));
      GateChangeKeeps(s1, s2);
      AfterGuardedKeeps(s2, g, h);
    }
  }

  // ------------------------------------------------------------ the rest

  lemma ApprovalKeeps(s: App, approvalId: string, agentId: Id, taskId: Id)
    requires Inv(s)
    ensures Inv(s.(tabs := ApprovalAsked(s.tabs, approvalId, agentId, taskId)))
  {
    hide Mon;
    UntouchedKeeps(s, s.(tabs := ApprovalAsked(s.tabs, approvalId, agentId, taskId)));
  }

  lemma RespondKeeps(s: App, decision: string, h: Host)
    requires Inv(s)
    ensures Inv(RespondApproval(s, decision, h))
  {
    hide Mon;
    hide Rpcs;
    hide SelectedAgent;
    UntouchedKeeps(s, RespondApproval(s, decision, h));
  }

  lemma StatusKeeps(s: App, taskId: Id, agentId: Id, status: AgentStatus)
    requires Inv(s)
    ensures Inv(s.(tabs := StatusChanged(s.tabs, taskId, agentId, status)))
  {
    hide Mon;
    hide Find;
    UntouchedKeeps(s, s.(tabs := StatusChanged(s.tabs, taskId, agentId, status)));
  }

  lemma ReceiveKeeps(s: App, item: InboxItem)
    requires Inv(s)
    ensures Inv(Receive(s, item))
  {
    hide Mon;
    MergeKeeps(s.inbox, item);
    UntouchedKeeps(s, Receive(s, item));
  }

  lemma DeliverKeeps(s: App, target: Option<Id>, text: string, inboxLive: bool, h: Host)
    requires Inv(s)
    ensures Inv(Deliver(s, target, text, inboxLive, h))
  {
    hide Inv;
    hide SelectedAgent;
    hide Find;
    hide Trim;
    hide Emit;
    hide Receive;
    if SelectedAgent(s.tabs).Some? && target.Some? {
      var from := SelectedAgent(s.tabs).value.id;
      var rpc := A2aDeliver(from, target.value, Trim(text));
      EmitKeeps(s, rpc);
      if h.delivered.Some? {
        var (to, messageId) := h.delivered.value;
        ReceiveKeeps(Emit(s, rpc), InboxItem(from, to, messageId, Trim(text)));
      }
    }
  }

  lemma AskSwitchKeeps(s: App, id: Id, h: Host)
    requires Inv(s) && s.conn.session.Some?
    ensures Inv(AskSwitch(s, id, h))
  {
    hide ApplySwitched;
    hide Framed;
    hide Emit;
    hide Inv;
    EmitKeeps(s, AgentSwitch(id));
    if h.switched(id).Some? { ApplySwitchedKeeps(Emit(s, AgentSwitch(id)), id, h.switched(id).value, h); }
  }

  lemma ApplySwitchedKeeps(s: App, id: Id, stub: AgentStub, h: Host)
    requires Inv(s) && s.conn.session.Some?
    ensures Inv(ApplySwitched(s, id, stub, h))
  {
    hide ApplySwitched;
    hide Framed;
    hide Answered;
    UntouchedKeeps(s, ApplySwitched(s, id, stub, h));
  }

  lemma SwitchAgentKeeps(s: App, ready: bool, h: Host)
    requires Inv(s)
    ensures Inv(SwitchAgent(s, ready, h))
  {
    hide Inv;
    hide AskSwitch;
    hide SelectedAgent;
    hide IsRunning;
    hide Framed;
    hide Stays;
    if SwitchAgent(s, ready, h) != s { AskSwitchKeeps(s, SelectedAgent(s.tabs).value.id, h); }
  }

  lemma UpdateRoleKeeps(s: App, changed: bool, h: Host)
    requires Inv(s)
    ensures Inv(UpdateRole(s, changed, h))
  {
    hide Mon;
    hide Rpcs;
    hide Answered;
    hide Framed;
    hide Stays;
    UntouchedKeeps(s, UpdateRole(s, changed, h));
  }

  /** A form changes nothing the invariants speak of, but that it may close gates. */
  lemma FormKeeps(s: App, r: App)
    requires Inv(s) && FormFrame(s, r)
    ensures Inv(r)
  {
    hide Mon;
    hide Rpcs;
  }

  lemma ToggleKeeps(s: App, path: string, h: Host)
    requires Inv(s)
    ensures Inv(ToggleDir(s, path, h))
  {
    hide Mon;
    hide Rpcs;
    UntouchedKeeps(s, ToggleDir(s, path, h));
  }

  /** Screen, composer, drafts, tab order and clock matter to no invariant but the screen's. */
  lemma PlainChangeKeeps(s: App, r: App)
    requires Inv(s)
    requires r == s.(tabs := r.tabs, composer := r.composer, catalog := r.catalog, order := r.order, now := r.now)
    requires r.tabs == s.tabs.(screen := r.tabs.screen) && (r.tabs.screen == s.tabs.screen || r.tabs.screen != Canvas)
    ensures Inv(r)
  {
    hide Mon;
  }

  lemma MergeKeeps(inbox: seq<InboxItem>, item: InboxItem)
    requires IdsOnce(inbox)
    ensures IdsOnce(Merge(inbox, item))
  {
  }

  lemma SwitchKeeps(s: App, id: Id, h: Host)
    requires Inv(s)
    ensures Inv(SwitchTaskTab(s, id, h))
  {
    hide Inv;
    hide OpenTask;
    OpenTaskKeeps(s, id, h);
  }

  lemma EnterKeeps(s: App, h: Host)
    requires Inv(s)
    ensures Inv(ModEnter(s, h))
  {
    hide Inv;
    hide SteerComposer;
    hide SendComposer;
    SteerKeeps(s, h);
    SendKeeps(s, h);
  }

  lemma RetryKeeps(s: App)
    requires Inv(s)
    ensures Inv(RequestRetry(s))
  {
    ConnectionChangeKeeps(s, RequestRetry(s));
  }

  lemma GoingAwayKeeps(s: App, hostId: string)
    requires Inv(s)
    ensures Inv(GoingAway(s, hostId))
  {
    ConnectionChangeKeeps(s, GoingAway(s, hostId));
  }

  lemma ConnectionStepKeeps(s: App, e: Event, h: Host)
    requires Inv(s) && AboutConnection(e)
    ensures Inv(ConnectionStep(s, e, h))
  {
    hide Inv;
    hide Framed;
    hide Stays;
    hide Untouched;
    hide TickDiscovery;
    hide RequestRetry;
    hide Reconnected;
    hide GoingAway;
    if e.Discover? {
      DiscoverKeeps(s, h);
    } else if e.Retry? {
      RetryKeeps(s);
    } else if e.WsReconnected? {
      ReconnectedKeeps(s, h);
    } else {
      GoingAwayKeeps(s, e.hostId);
    }
  }

  lemma TabStepKeeps(s: App, e: Event, h: Host)
    requires Inv(s) && AboutTabs(e)
    ensures Inv(TabStep(s, e, h))
  {
    hide Inv;
    hide Framed;
    hide Stays;
    hide Untouched;
    hide OpenTask;
    hide SwitchTaskTab;
    hide CloseTaskTab;
    hide SelectAgent;
    hide CreateTask;
    hide CreateAgent;
    hide CreateChild;
    hide RemoveAgent;
    hide Quiet;
    hide CanvasFrame;
    match e {
      case Open(id) => OpenTaskKeeps(s, id, h);
      case Switch(id) => SwitchKeeps(s, id, h);
      case Close(id) => CloseKeeps(s, id, h);
      case Select(id) => SelectKeeps(s, id, h);
      case NewTask(title) => NewTaskKeeps(s, title, h);
      case NewAgent(ready) => NewAgentKeeps(s, ready, h);
      case NewChild(ready) => NewChildKeeps(s, ready, h);
      case Delete(id) => RemoveAgentKeeps(s, id, h);
    }
  }

  lemma TalkStepKeeps(s: App, e: Event, h: Host)
    requires Inv(s) && AboutTalk(e)
    ensures Inv(TalkStep(s, e, h))
  {
    hide Inv;
    hide Framed;
    hide Stays;
    hide Untouched;
    hide ModEnter;
    hide SendComposer;
    hide SteerComposer;
    hide CancelRunningAgent;
    hide WorkerDone;
    hide TickRpc;
    hide RespondApproval;
    match e {
      case Enter => EnterKeeps(s, h);
      case Send => SendKeeps(s, h);
      case Steer => SteerKeeps(s, h);
      case Stop => StopKeeps(s);
      case WorkerReply => WorkerKeeps(s, h);
      case Tick => TickKeeps(s, h);
      case Respond(decision) => RespondKeeps(s, decision, h);
    }
  }

  lemma SearchStepKeeps(s: App, e: Event, h: Host)
    requires Inv(s) && AboutSearch(e)
    ensures Inv(SearchStep(s, e, h))
  {
    hide Inv;
    hide Framed;
    hide Stays;
    hide Untouched;
    hide EditSearch;
    hide SubmitSearch;
    hide SearchEnter;
    hide ActivateSearchResult;
    hide DismissSearch;
    match e {
      case SearchEdit(text) => EditKeeps(s, text);
      case SearchSubmit => SubmitKeeps(s, h);
      case SearchReturn(artifactTask) => ReturnKeeps(s, artifactTask, h);
      case SearchPick(index, artifactTask) => ActivateKeeps(s, index, artifactTask, h);
      case SearchDismiss => DismissKeeps(s);
    }
  }

  lemma GateStepKeeps(s: App, e: Event, h: Host)
    requires Inv(s) && AboutGates(e)
    ensures Inv(GateStep(s, e, h))
  {
    hide Inv;
    hide Framed;
    hide Stays;
    hide Untouched;
    hide RequestGate;
    hide WithdrawGate;
    hide ConfirmGate;
    match e {
      case Request(g) => RequestKeeps(s, g);
      case Withdraw(g) => WithdrawKeeps(s, g);
      case Confirm(g, picked) => ConfirmKeeps(s, g, picked, h);
    }
  }

  lemma AgentsStepKeeps(s: App, e: Event, h: Host)
    requires Inv(s) && AboutAgents(e)
    ensures Inv(AgentsStep(s, e, h))
  {
    hide Inv;
    hide Framed;
    hide Stays;
    hide Untouched;
    hide ApprovalAsked;
    hide StatusChanged;
    hide Receive;
    hide Deliver;
    hide TabOrder.Drop;
    hide ToggleDir;
    hide SwitchAgent;
    hide UpdateRole;
    match e {
      case WsApproval(approvalId, agentId, taskId) => ApprovalKeeps(s, approvalId, agentId, taskId);
      case WsStatus(taskId, agentId, status) => StatusKeeps(s, taskId, agentId, status);
      case WsDelivered(from, to, messageId) => ReceiveKeeps(s, InboxItem(from, to, messageId, ""));
      case DeliverTo(target, text, live) => DeliverKeeps(s, target, text, live, h);
      case Drag(agentId, tileId) => PlainChangeKeeps(s, DropAgentOnTile(s, agentId, tileId));
      case Toggle(path) => ToggleKeeps(s, path, h);
      case SwitchModel(ready) => SwitchAgentKeeps(s, ready, h);
      case PickRole(changed) => UpdateRoleKeeps(s, changed, h);
    }
  }

  lemma DraftStepKeeps(s: App, e: Event)
    requires Inv(s)
    ensures Inv(DraftStep(s, e))
  {
    hide Inv;
    hide PresetPicked;
    PlainChangeKeeps(s, DraftStep(s, e));
  }

  lemma ConnectionStepIs(s: App, e: Event, h: Host)
    requires AboutConnection(e)
    ensures Step(s, e, h) == ConnectionStep(s, e, h)
  {
    hide FamilyOf;
    hide ConnectionStep;
  }

  lemma TabsStepIs(s: App, e: Event, h: Host)
    requires AboutTabs(e)
    ensures Step(s, e, h) == TabStep(s, e, h)
  {
    hide FamilyOf;
    hide TabStep;
  }

  lemma TalkStepIs(s: App, e: Event, h: Host)
    requires AboutTalk(e)
    ensures Step(s, e, h) == TalkStep(s, e, h)
  {
    hide FamilyOf;
    hide TalkStep;
  }

  lemma SearchStepIs(s: App, e: Event, h: Host)
    requires AboutSearch(e)
    ensures Step(s, e, h) == SearchStep(s, e, h)
  {
    hide FamilyOf;
    hide SearchStep;
  }

  lemma GatesStepIs(s: App, e: Event, h: Host)
    requires AboutGates(e)
    ensures Step(s, e, h) == GateStep(s, e, h)
  {
    hide FamilyOf;
    hide GateStep;
  }

  lemma AgentsStepIs(s: App, e: Event, h: Host)
    requires AboutAgents(e)
    ensures Step(s, e, h) == AgentsStep(s, e, h)
  {
    hide FamilyOf;
    hide AgentsStep;
  }

  lemma FormsStepIs(s: App, e: Event, h: Host)
    requires AboutForms(e)
    ensures Step(s, e, h) == FormStep(s, e, h)
  {
    hide FamilyOf;
    hide FormStep;
    hide FormFrame;
  }

  lemma DraftStepIs(s: App, e: Event, h: Host)
    requires FamilyOf(e).OfDrafts?
    ensures Step(s, e, h) == DraftStep(s, e)
  {
    hide FamilyOf;
    hide DraftStep;
  }

  /** Every step keeps every invariant. */
  lemma StepKeeps(s: App, e: Event, h: Host)
    requires Inv(s)
    ensures Inv(Step(s, e, h))
  {
    hide Inv;
    hide FamilyOf;
    hide ConnectionStep;
    hide TabStep;
    hide TalkStep;
    hide SearchStep;
    hide GateStep;
    hide AgentsStep;
    hide FormStep;
    hide DraftStep;
    if AboutConnection(e) {
      ConnectionStepKeeps(s, e, h);
    } else if AboutTabs(e) {
      TabStepKeeps(s, e, h);
    } else if AboutTalk(e) {
      TalkStepKeeps(s, e, h);
    } else if AboutSearch(e) {
      SearchStepKeeps(s, e, h);
    } else if AboutGates(e) {
      GateStepKeeps(s, e, h);
    } else if AboutAgents(e) {
      AgentsStepKeeps(s, e, h);
    } else if AboutForms(e) {
      FormKeeps(s, FormStep(s, e, h));
    } else {
      DraftStepKeeps(s, e);
    }
  }

  /** Every reachable state is consistent and every trace is lawful. */
  lemma {:induction false} EveryRunIsOk(events: seq<(Event, Host)>)
    ensures Inv(Run(Initial, events))
  {
    hide Step;
    if events != [] {
      EveryRunIsOk(events[..|events| - 1]);
      var (e, h) := Last(events);
      StepKeeps(Run(Initial, events[..|events| - 1]), e, h);
    } else {
      InitialIsOk();
    }
  }

  lemma InitialIsOk()
    ensures Inv(Initial)
  {
  }
}
