/** Runs against a host that answers truthfully: agent ids stay unique, so the conversation
    tree can be built, and the tab bar shows each agent of the selected task once. */
module HonestHost {
  import opened Basics
  import opened Text
  import opened Forest
  import opened ForestFacts
  import opened Agents
  import opened A2a
  import opened Traces
  import opened AppModel
  import opened AppRuns
  import opened RunFacts
  import opened TabBarFacts
  import opened Deletion
  import TabOrder

  /** Where the host keeps an agent: in one task, and settled below one agent or none, or roaming,
      said to be below whatever agent at any time. */
  datatype Home = Settled(taskId: Id, parentId: Option<Id>) | Roaming(taskId: Id)

  predicate ChildOf(place: Home, p: Id) {
    place.Settled? && place.parentId == Some(p)
  }

  /** As the host would say it. */
  predicate Told(a: AgentStub, home: Id -> Home) {
    home(a.id) in {Settled(a.taskId, a.parentId), Roaming(a.taskId)}
  }

  /** As the host would say it, but that a pointer to an agent not listed in the task may have
      been cleared: the host does not hear of deletions. */
  ghost predicate Faithful(a: AgentStub, agents: seq<AgentStub>, home: Id -> Home) {
    && a.taskId == home(a.id).taskId
    && (Told(a, home)
        || (a.parentId.None? && forall b :: b in agents && b.taskId == a.taskId ==> !ChildOf(home(a.id), b.id)))
  }

  ghost predicate AgentsOk(agents: seq<AgentStub>, home: Id -> Home) {
    Distinct(AgentIds(agents)) && forall a :: a in agents ==> Faithful(a, agents, home)
  }

  ghost predicate ListOk(items: seq<AgentStub>, task: Id, home: Id -> Home) {
    Distinct(AgentIds(items)) && forall a :: a in items ==> a.taskId == task && Told(a, home)
  }

  predicate ReplyOk(reply: Option<AgentStub>, id: Id, home: Id -> Home) {
    reply.Some? ==> reply.value.id == id && Told(reply.value, home)
  }

  /** Every agent has its task for good, and its parent if it is settled: a list names agents of
      the task asked for, each once, and any answer about an agent is about the agent asked for. */
  ghost predicate Truthful(h: Host, home: Id -> Home) {
    && (forall task :: h.agents(task).Some? ==> ListOk(h.agents(task).value, task, home))
    && (forall id :: ReplyOk(h.agent(id), id, home))
    && (forall id :: ReplyOk(h.switched(id), id, home))
    && (forall id :: ReplyOk(h.roleUpdated(id), id, home))
    && (h.created.Some? ==> Told(h.created.value, home))
  }

  /** A created agent has a new id, so no older agent is its child. */
  ghost predicate NewIdIsFresh(s: App, h: Host, home: Id -> Home) {
    h.created.Some? ==>
      && h.created.value.id !in AgentIds(s.tabs.agents)
      && forall a :: a in s.tabs.agents ==> !ChildOf(home(a.id), h.created.value.id)
  }

  // ------------------------------------------------------------ lists of agents

  lemma {:induction false} WhereIdsDistinct(agents: seq<AgentStub>, keep: AgentStub -> bool)
    requires Distinct(AgentIds(agents))
    ensures Distinct(AgentIds(Where(agents, keep)))
    ensures forall a :: a in Where(agents, keep) ==> a in agents && keep(a)
  {
    if agents != [] {
      var front, a := agents[..|agents| - 1], Last(agents);
      assert forall k :: 0 <= k < |front| ==> AgentIds(front)[k] == AgentIds(agents)[k];
      WhereIdsDistinct(front, keep);
      forall k | 0 <= k < |Where(front, keep)| ensures Where(front, keep)[k].id != a.id {
        var x := Where(front, keep)[k];
        assert x in front;
        var j :| 0 <= j < |front| && front[j] == x;
        assert AgentIds(agents)[j] != AgentIds(agents)[|agents| - 1];
      }
    }
  }

  lemma ConcatIdsDistinct(kept: seq<AgentStub>, items: seq<AgentStub>)
    requires Distinct(AgentIds(kept)) && Distinct(AgentIds(items))
    requires forall a, b :: a in kept && b in items ==> a.id != b.id
    ensures Distinct(AgentIds(kept + items))
  {
    var all := kept + items;
    forall i, j | 0 <= i < j < |all| ensures AgentIds(all)[i] != AgentIds(all)[j] {
      if j < |kept| {
        assert AgentIds(kept)[i] != AgentIds(kept)[j];
      } else if |kept| <= i {
        assert AgentIds(items)[i - |kept|] != AgentIds(items)[j - |kept|];
      } else {
        assert all[i] in kept && all[j] in items;
      }
    }
  }

  lemma ReplacedAgentsOk(agents: seq<AgentStub>, k: nat, a: AgentStub, home: Id -> Home)
    requires AgentsOk(agents, home) && k < |agents| && a.id == agents[k].id && a.taskId == agents[k].taskId
    requires a.parentId == agents[k].parentId || Told(a, home)
    ensures AgentsOk(agents[k := a], home)
  {
    var after := agents[k := a];
    assert AgentIds(after) == AgentIds(agents);
    assert agents[k] in agents;
    forall b | b in after ensures Faithful(b, after, home) {
      assert b == a || b in agents;
    }
  }

  lemma StatusAgentsOk(agents: seq<AgentStub>, k: nat, status: AgentStatus, home: Id -> Home)
    requires AgentsOk(agents, home)
    ensures AgentsOk(SetStatus(agents, k, status), home)
  {
    if k < |agents| { ReplacedAgentsOk(agents, k, agents[k].(status := status), home); }
  }

  lemma AnsweredAgentsOk(agents: seq<AgentStub>, id: Id, reply: Option<AgentStub>, home: Id -> Home)
    requires AgentsOk(agents, home) && ReplyOk(reply, id, home)
    ensures AgentsOk(Answered(agents, id, reply), home)
  {
    var k := Find(agents, id);
    if reply.Some? && k < |agents| {
      assert agents[k] in agents;
      ReplacedAgentsOk(agents, k, reply.value, home);
    }
  }

  lemma WithoutAgentsOk(agents: seq<AgentStub>, id: Id, home: Id -> Home)
    requires AgentsOk(agents, home)
    ensures AgentsOk(Without(agents, id), home)
  {
    var kept := Without(agents, id);
    WithoutEntries(agents, id);
    assert Ids(Entries(agents)) == AgentIds(agents) && Ids(Entries(kept)) == AgentIds(kept);
    RemoveDistinct(Entries(agents), id);
    forall x | x in kept ensures Faithful(x, kept, home) {
      var a := WithoutMembers(agents, id, x);
      assert Faithful(a, agents, home);
      forall b | b in kept && b.taskId == x.taskId && x.parentId.None?
        ensures Told(x, home) || !ChildOf(home(x.id), b.id)
      {
        var c := WithoutMembers(agents, id, b);
      }
    }
  }

  lemma ListedIsDistinct(t: Tabs, home: Id -> Home)
    requires AgentsOk(t.agents, home)
    ensures Distinct(Listed(t))
  {
    if t.selectedTask.Some? {
      WhereIdsDistinct(t.agents, (a: AgentStub) => a.taskId == t.selectedTask.value);
    }
  }

  // ------------------------------------------------------------ loading

  lemma ReloadAgentsOk(s: App, task: Id, h: Host, home: Id -> Home)
    requires AgentsOk(s.tabs.agents, home) && Truthful(h, home)
    ensures AgentsOk(ReloadAgents(s, task, h).tabs.agents, home)
  {
    hide AgentsOk;
    hide Mon;
    hide Rpcs;
    if s.conn.session.Some? && h.agents(task).Some? {
      ReplacedListOk(s.tabs.agents, h.agents(task).value, task, home);
    }
  }

  lemma ReplacedListOk(agents: seq<AgentStub>, items: seq<AgentStub>, task: Id, home: Id -> Home)
    requires AgentsOk(agents, home) && ListOk(items, task, home)
    ensures AgentsOk(NotOfTask(agents, task) + items, home)
  {
    var others := NotOfTask(agents, task);
    var all := others + items;
    WhereIdsDistinct(agents, (a: AgentStub) => a.taskId != task);
    forall a, b | a in others && b in items ensures a.id != b.id {
      assert Faithful(a, agents, home);
    }
    ConcatIdsDistinct(others, items);
    forall a | a in all ensures Faithful(a, all, home) {
      if a in others { assert Faithful(a, agents, home); }
    }
  }

  lemma RefreshAgentsOk(s: App, id: Id, h: Host, home: Id -> Home)
    requires s.conn.session.Some? && AgentsOk(s.tabs.agents, home) && Truthful(h, home)
    ensures AgentsOk(RefreshAgent(s, id, h).tabs.agents, home)
  {
    hide RefreshAgent;
    AnsweredAgentsOk(s.tabs.agents, id, h.agent(id), home);
  }

  lemma LoadAgentsOk(s: App, h: Host, home: Id -> Home)
    requires AgentsOk(s.tabs.agents, home) && Truthful(h, home)
    ensures AgentsOk(LoadSelectedAgent(s, h).tabs.agents, home)
  {
    hide SelectedAgent;
    hide RefreshAgent;
    hide AgentsOk;
    hide Truthful;
    hide Quiet;
    if SelectedAgent(s.tabs).Some? && s.conn.session.Some? {
      RefreshAgentsOk(s, SelectedAgent(s.tabs).value.id, h, home);
    }
  }

  lemma CanvasAgentsOk(s: App, task: Id, h: Host, home: Id -> Home)
    requires AgentsOk(s.tabs.agents, home) && Truthful(h, home)
    ensures AgentsOk(ReloadCanvas(s, task, h).tabs.agents, home)
  {
    hide AgentsOk;
    hide Truthful;
    hide ReloadAgents;
    hide LoadSelectedAgent;
    hide Mon;
    hide Rpcs;
    var s1 := s.(dirs := Dirs(map[], {}));
    ReloadAgentsOk(s1, task, h, home);
    LoadAgentsOk(ReloadAgents(s1, task, h), h, home);
  }

  lemma OpenAgentsOk(s: App, id: Id, h: Host, home: Id -> Home)
    requires AgentsOk(s.tabs.agents, home) && Truthful(h, home)
    ensures AgentsOk(OpenTask(s, id, h).tabs.agents, home)
  {
    hide AgentsOk;
    hide Truthful;
    hide ReloadCanvas;
    hide Mon;
    hide Rpcs;
    CanvasAgentsOk(s.(tabs := Opened(s.tabs, id)), id, h, home);
  }

  // ------------------------------------------------------------ steps

  lemma CloseAgentsOk(s: App, id: Id, h: Host, home: Id -> Home)
    requires AgentsOk(s.tabs.agents, home) && Truthful(h, home)
    ensures AgentsOk(CloseTaskTab(s, id, h).tabs.agents, home)
  {
    hide AgentsOk;
    hide Truthful;
    hide OpenTask;
    hide Mon;
    hide Rpcs;
    var t := Closed(s.tabs, id);
    if t.open != [] { OpenAgentsOk(s.(tabs := t.(selectedTask := None)), Last(t.open), h, home); }
  }

  lemma NewTaskAgentsOk(s: App, title: string, h: Host, home: Id -> Home)
    requires AgentsOk(s.tabs.agents, home) && Truthful(h, home)
    ensures AgentsOk(CreateTask(s, title, h).tabs.agents, home)
  {
    hide AgentsOk;
    hide Truthful;
    hide OpenTask;
    hide RefreshCatalog;
    hide Framed;
    hide Mon;
    hide Rpcs;
    if h.task.Some? {
      forall s': App | s'.tabs == s.tabs ensures AgentsOk(OpenTask(s', h.task.value, h).tabs.agents, home) {
        OpenAgentsOk(s', h.task.value, h, home);
      }
    }
  }

  lemma SnocAgentsOk(agents: seq<AgentStub>, stub: AgentStub, home: Id -> Home)
    requires AgentsOk(agents, home) && Told(stub, home) && stub.id !in AgentIds(agents)
    requires forall a :: a in agents ==> !ChildOf(home(a.id), stub.id)
    ensures AgentsOk(agents + [stub], home)
  {
    var all := agents + [stub];
    forall a, b | a in agents && b in [stub] ensures a.id != b.id {
      var k :| 0 <= k < |agents| && agents[k] == a;
      assert AgentIds(agents)[k] == a.id;
    }
    ConcatIdsDistinct(agents, [stub]);
    forall a | a in all ensures Faithful(a, all, home) {
      if a in agents { assert Faithful(a, agents, home); }
    }
  }

  lemma AddedAgentsOk(s: App, stub: AgentStub, h: Host, home: Id -> Home)
    requires AgentsOk(s.tabs.agents, home) && Truthful(h, home)
    requires Told(stub, home) && stub.id !in AgentIds(s.tabs.agents)
    requires forall a :: a in s.tabs.agents ==> !ChildOf(home(a.id), stub.id)
    ensures AgentsOk(Added(s, stub, h).tabs.agents, home)
  {
    hide Truthful;
    hide AgentsOk;
    hide LoadSelectedAgent;
    hide Mon;
    hide Rpcs;
    var t := Remember(s.tabs.(selectedAgent := Some(stub.id)));
    SnocAgentsOk(t.agents, stub, home);
    LoadAgentsOk(s.(tabs := t.(agents := t.agents + [stub])), h, home);
  }

  lemma CreateAgentsOk(s: App, pickerReady: bool, h: Host, home: Id -> Home)
    requires AgentsOk(s.tabs.agents, home) && Truthful(h, home) && NewIdIsFresh(s, h, home)
    ensures AgentsOk(CreateAgent(s, pickerReady, h).tabs.agents, home)
    ensures AgentsOk(CreateChild(s, pickerReady, h).tabs.agents, home)
  {
    hide AgentsOk;
    hide Added;
    hide SelectedAgent;
    hide Framed;
    hide Stays;
    hide Mon;
    hide Rpcs;
    if h.created.Some? {
      forall s': App | s'.tabs == s.tabs ensures AgentsOk(Added(s', h.created.value, h).tabs.agents, home) {
        AddedAgentsOk(s', h.created.value, h, home);
      }
    }
  }

  lemma RemoveAgentsOk(s: App, id: Id, h: Host, home: Id -> Home)
    requires AgentsOk(s.tabs.agents, home) && Truthful(h, home)
    ensures AgentsOk(RemoveAgent(s, id, h).tabs.agents, home)
  {
    hide AgentsOk;
    hide Truthful;
    hide LoadSelectedAgent;
    hide AgentsForSelectedTask;
    hide Mon;
    hide Rpcs;
    WithoutAgentsOk(s.tabs.agents, id, home);
    var t := s.tabs.(agents := Without(s.tabs.agents, id));
    var s1 := s.(tabs := t, inbox := WithoutMentions(s.inbox, id));
    var t1 := t.(selectedAgent := FirstId(AgentsForSelectedTask(t)));
    LoadAgentsOk(s1.(tabs := Remember(t1)), h, home);
  }

  lemma SelectAgentsOk(s: App, id: Id, h: Host, home: Id -> Home)
    requires AgentsOk(s.tabs.agents, home) && Truthful(h, home)
    ensures AgentsOk(SelectAgent(s, id, h).tabs.agents, home)
  {
    hide AgentsOk;
    hide Truthful;
    hide LoadSelectedAgent;
    hide Mon;
    hide Rpcs;
    LoadAgentsOk(s.(tabs := Remember(s.tabs.(selectedAgent := Some(id)))), h, home);
  }

  lemma {:induction false} CancelsAgentsOk(s: App, dones: seq<CancelDone>, home: Id -> Home)
    requires AgentsOk(s.tabs.agents, home)
    ensures AgentsOk(ApplyCancels(s, dones).tabs.agents, home)
  {
    hide AgentsOk;
    hide Framed;
    hide FindEither;
    hide SetStatus;
    hide Mon;
    hide Rpcs;
    if dones != [] {
      CancelsAgentsOk(s, dones[..|dones| - 1], home);
      var before, done := ApplyCancels(s, dones[..|dones| - 1]), Last(dones);
      if done.result.Ok? {
        var k := FindEither(before.tabs.agents, done.result.value.agentId, done.agentId);
        StatusAgentsOk(before.tabs.agents, k, Idle, home);
      }
    }
  }

  lemma SubmitKeepsTabs(s: App, h: Host)
    ensures SubmitSearch(s, h).tabs == s.tabs
  {
    hide Trim;
    hide Mon;
    hide Rpcs;
  }

  lemma DebounceKeepsTabs(s: App, h: Host)
    ensures TickSearchDebounce(s, h).tabs == s.tabs
  {
    hide SubmitSearch;
    hide Mon;
    hide Rpcs;
    SubmitKeepsTabs(Note(s, Debounced(s.now)), h);
  }

  lemma TickAgentsOk(s: App, h: Host, home: Id -> Home)
    requires AgentsOk(s.tabs.agents, home)
    ensures AgentsOk(TickRpc(s, h).tabs.agents, home)
  {
    hide AgentsOk;
    hide ApplyCancels;
    hide TickSearchDebounce;
    hide Mon;
    hide Rpcs;
    var drained := s.(cancel := s.cancel.(results := []));
    CancelsAgentsOk(drained, s.cancel.results, home);
    DebounceKeepsTabs(ApplyCancels(drained, s.cancel.results), h);
  }

  lemma PickAgentsOk(s: App, index: nat, artifactTask: Option<Id>, h: Host, home: Id -> Home)
    requires AgentsOk(s.tabs.agents, home) && Truthful(h, home)
    ensures AgentsOk(ActivateSearchResult(s, index, artifactTask, h).tabs.agents, home)
  {
    hide AgentsOk;
    hide Truthful;
    hide OpenTask;
    hide Mon;
    hide Rpcs;
    if index < |s.search.items| {
      OpenAgentsOk(s, s.search.items[index].id, h, home);
      if artifactTask.Some? { OpenAgentsOk(s, artifactTask.value, h, home); }
    }
  }

  lemma ReturnAgentsOk(s: App, artifactTask: Option<Id>, h: Host, home: Id -> Home)
    requires AgentsOk(s.tabs.agents, home) && Truthful(h, home)
    ensures AgentsOk(SearchEnter(s, artifactTask, h).tabs.agents, home)
  {
    hide AgentsOk;
    hide Truthful;
    hide ActivateSearchResult;
    hide SubmitSearch;
    hide Mon;
    hide Rpcs;
    PickAgentsOk(s, 0, artifactTask, h, home);
    SubmitKeepsTabs(s, h);
    PickAgentsOk(SubmitSearch(s, h), 0, artifactTask, h, home);
  }

  lemma DiscoverAgentsOk(s: App, h: Host, home: Id -> Home)
    requires AgentsOk(s.tabs.agents, home) && Truthful(h, home)
    ensures AgentsOk(TickDiscovery(s, h).tabs.agents, home)
  {
    hide AgentsOk;
    hide Truthful;
    hide ReloadCanvas;
    hide RefreshCatalog;
    hide Framed;
    hide Mon;
    hide Rpcs;
    if s.tabs.selectedTask.Some? {
      forall s': App | s'.tabs == s.tabs
        ensures AgentsOk(ReloadCanvas(s', s.tabs.selectedTask.value, h).tabs.agents, home)
      {
        CanvasAgentsOk(s', s.tabs.selectedTask.value, h, home);
      }
    }
  }

  lemma ConfirmAgentsOk(s: App, g: Gate, picked: bool, h: Host, home: Id -> Home)
    requires AgentsOk(s.tabs.agents, home) && Truthful(h, home)
    ensures AgentsOk(ConfirmGate(s, g, picked, h).tabs.agents, home)
  {
    hide AgentsOk;
    hide Truthful;
    hide AfterGuarded;
    hide Offered;
    hide Prepared;
    hide Mon;
    hide Rpcs;
    forall s': App | s'.tabs == s.tabs ensures AgentsOk(AfterGuarded(s', g, h).tabs.agents, home) {
      AfterGuardedAgentsOk(s', g, h, home);
    }
  }

  lemma AfterGuardedAgentsOk(s: App, g: Gate, h: Host, home: Id -> Home)
    requires AgentsOk(s.tabs.agents, home) && Truthful(h, home)
    ensures AgentsOk(AfterGuarded(s, g, h).tabs.agents, home)
  {
    hide AgentsOk;
    hide Truthful;
    hide RefreshCatalog;
    hide ReloadAgents;
    hide LoadSelectedAgent;
    hide Mon;
    hide Rpcs;
    var s1 := RefreshCatalog(s, h);
    if s1.tabs.selectedTask.Some? {
      ReloadAgentsOk(s1, s1.tabs.selectedTask.value, h, home);
      LoadAgentsOk(ReloadAgents(s1, s1.tabs.selectedTask.value, h), h, home);
    }
  }

  // ------------------------------------------------------------ every step

  lemma ConnectionStepAgentsOk(s: App, e: Event, h: Host, home: Id -> Home)
    requires AboutConnection(e)
    requires AgentsOk(s.tabs.agents, home) && Truthful(h, home)
    ensures AgentsOk(ConnectionStep(s, e, h).tabs.agents, home)
  {
    hide AgentsOk;
    hide Truthful;
    hide TickDiscovery;
    hide ReloadCanvas;
    if e.Discover? { DiscoverAgentsOk(s, h, home); }
    if s.tabs.selectedTask.Some? { CanvasAgentsOk(s, s.tabs.selectedTask.value, h, home); }
  }

  lemma TabStepAgentsOk(s: App, e: Event, h: Host, home: Id -> Home)
    requires AboutTabs(e)
    requires AgentsOk(s.tabs.agents, home) && Truthful(h, home) && NewIdIsFresh(s, h, home)
    ensures AgentsOk(TabStep(s, e, h).tabs.agents, home)
  {
    hide AgentsOk;
    hide Quiet;
    hide CanvasFrame;
    hide Truthful;
    hide NewIdIsFresh;
    hide Framed;
    hide Stays;
    hide OpenTask;
    hide CloseTaskTab;
    hide SelectAgent;
    hide CreateTask;
    hide CreateAgent;
    hide CreateChild;
    hide RemoveAgent;
    if e.Open? || e.Switch? {
      OpenAgentsOk(s, e.id, h, home);
    } else if e.Close? {
      CloseAgentsOk(s, e.id, h, home);
    } else if e.Select? {
      SelectAgentsOk(s, e.id, h, home);
    } else if e.NewTask? {
      NewTaskAgentsOk(s, e.title, h, home);
    } else if e.Delete? {
      RemoveAgentsOk(s, e.id, h, home);
    } else {
      CreateAgentsOk(s, e.pickerReady, h, home);
    }
  }

  lemma TalkStepAgentsOk(s: App, e: Event, h: Host, home: Id -> Home)
    requires AboutTalk(e) && AgentsOk(s.tabs.agents, home)
    ensures AgentsOk(TalkStep(s, e, h).tabs.agents, home)
  {
    hide AgentsOk;
    hide TickRpc;
    if e.Tick? { TickAgentsOk(s, h, home); } else { TalkKeepsAgents(s, e, h); }
  }

  lemma TalkKeepsAgents(s: App, e: Event, h: Host)
    requires AboutTalk(e) && !e.Tick?
    ensures TalkStep(s, e, h).tabs.agents == s.tabs.agents
  {
    hide Framed;
    hide Stays;
    hide ModEnter;
    hide SendComposer;
    hide SteerComposer;
    hide CancelRunningAgent;
    hide WorkerDone;
    hide RespondApproval;
    if e.Enter? || e.Send? || e.Steer? {
      ComposingKeepsAgents(s, h);
    } else if e.Stop? || e.WorkerReply? {
      CancellingKeepsAgents(s, h);
    } else {
      RespondingKeepsAgents(s, e.decision, h);
    }
  }

  lemma CancellingKeepsAgents(s: App, h: Host)
    ensures CancelRunningAgent(s).tabs == WorkerDone(s, h).tabs == s.tabs
  {
    hide Framed;
    hide Stays;
    hide IsRunning;
    hide SelectedAgent;
    hide Mon;
    hide Rpcs;
  }

  lemma RespondingKeepsAgents(s: App, decision: string, h: Host)
    ensures RespondApproval(s, decision, h).tabs.agents == s.tabs.agents
  {
    hide Framed;
    hide Stays;
    hide SelectedAgent;
    hide Mon;
    hide Rpcs;
  }

  lemma ComposingKeepsAgents(s: App, h: Host)
    ensures SendComposer(s, h).tabs == SteerComposer(s, h).tabs == ModEnter(s, h).tabs == s.tabs
  {
    hide Framed;
    hide Stays;
    hide ComposerEnabled;
    hide IsRunning;
    hide SelectedAgent;
    hide Trim;
    hide Mon;
    hide Rpcs;
  }

  lemma SearchStepAgentsOk(s: App, e: Event, h: Host, home: Id -> Home)
    requires AboutSearch(e)
    requires AgentsOk(s.tabs.agents, home) && Truthful(h, home)
    ensures AgentsOk(SearchStep(s, e, h).tabs.agents, home)
  {
    hide AgentsOk;
    hide Truthful;
    hide Framed;
    hide Stays;
    hide Mon;
    hide Rpcs;
    hide SubmitSearch;
    hide SearchEnter;
    hide ActivateSearchResult;
    match e {
      case SearchEdit(text) =>
      case SearchSubmit => SubmitKeepsTabs(s, h);
      case SearchReturn(artifactTask) => ReturnAgentsOk(s, artifactTask, h, home);
      case SearchPick(index, artifactTask) => PickAgentsOk(s, index, artifactTask, h, home);
      case SearchDismiss =>
    }
  }

  lemma GateStepAgentsOk(s: App, e: Event, h: Host, home: Id -> Home)
    requires AboutGates(e)
    requires AgentsOk(s.tabs.agents, home) && Truthful(h, home)
    ensures AgentsOk(GateStep(s, e, h).tabs.agents, home)
  {
    hide AgentsOk;
    hide Truthful;
    hide RequestGate;
    hide WithdrawGate;
    hide ConfirmGate;
    if e.Confirm? { ConfirmAgentsOk(s, e.gate, e.picked, h, home); }
  }

  lemma StatusChangedAgentsOk(t: Tabs, task: Id, id: Id, status: AgentStatus, home: Id -> Home)
    requires AgentsOk(t.agents, home)
    ensures AgentsOk(StatusChanged(t, task, id, status).agents, home)
  {
    hide AgentsOk;
    hide SetStatus;
    StatusAgentsOk(t.agents, Find(t.agents, id), status, home);
  }

  lemma SwitchAgentsOk(s: App, ready: bool, h: Host, home: Id -> Home)
    requires AgentsOk(s.tabs.agents, home) && Truthful(h, home)
    ensures AgentsOk(SwitchAgent(s, ready, h).tabs.agents, home)
  {
    hide AgentsOk;
    hide SelectedAgent;
    hide IsRunning;
    hide Answered;
    hide ApplySwitched;
    hide Framed;
    hide Stays;
    hide Mon;
    hide Rpcs;
    if SelectedAgent(s.tabs).Some? {
      var id := SelectedAgent(s.tabs).value.id;
      AnsweredAgentsOk(s.tabs.agents, id, h.switched(id), home);
      AnsweredAgentsOk(Answered(s.tabs.agents, id, h.switched(id)), id, h.agent(id), home);
    }
  }

  lemma RoleAgentsOk(s: App, changed: bool, h: Host, home: Id -> Home)
    requires AgentsOk(s.tabs.agents, home) && Truthful(h, home)
    ensures AgentsOk(UpdateRole(s, changed, h).tabs.agents, home)
  {
    hide AgentsOk;
    hide Answered;
    hide Framed;
    hide Stays;
    hide Mon;
    hide Rpcs;
    if s.tabs.selectedAgent.Some? {
      var id := s.tabs.selectedAgent.value;
      AnsweredAgentsOk(s.tabs.agents, id, h.roleUpdated(id), home);
    }
  }

  lemma AgentsStepAgentsOk(s: App, e: Event, h: Host, home: Id -> Home)
    requires AboutAgents(e) && AgentsOk(s.tabs.agents, home) && Truthful(h, home)
    ensures AgentsOk(AgentsStep(s, e, h).tabs.agents, home)
  {
    hide AgentsOk;
    hide Truthful;
    hide StatusChanged;
    hide SwitchAgent;
    hide UpdateRole;
    hide Framed;
    hide Stays;
    hide SelectedAgent;
    hide Find;
    hide Trim;
    hide TabOrder.Drop;
    hide Mon;
    hide Rpcs;
    if e.WsStatus? { StatusChangedAgentsOk(s.tabs, e.taskId, e.agentId, e.status, home); }
    if e.SwitchModel? { SwitchAgentsOk(s, e.ready, h, home); }
    if e.PickRole? { RoleAgentsOk(s, e.changed, h, home); }
  }

  lemma StepAgentsOk(s: App, e: Event, h: Host, home: Id -> Home)
    requires AgentsOk(s.tabs.agents, home) && Truthful(h, home) && NewIdIsFresh(s, h, home)
    ensures AgentsOk(Step(s, e, h).tabs.agents, home)
  {
    hide AgentsOk;
    hide Truthful;
    hide NewIdIsFresh;
    hide FamilyOf;
    hide Step;
    if AboutConnection(e) {
      ConnectionStepIs(s, e, h);
      ConnectionStepAgentsOk(s, e, h, home);
    } else if AboutTabs(e) {
      TabsStepIs(s, e, h);
      TabStepAgentsOk(s, e, h, home);
    } else if AboutTalk(e) {
      TalkStepIs(s, e, h);
      TalkStepAgentsOk(s, e, h, home);
    } else if AboutSearch(e) {
      SearchStepIs(s, e, h);
      SearchStepAgentsOk(s, e, h, home);
    } else {
      LaterStepAgentsOk(s, e, h, home);
    }
  }

  lemma LaterStepAgentsOk(s: App, e: Event, h: Host, home: Id -> Home)
    requires !AboutConnection(e) && !AboutTabs(e) && !AboutTalk(e) && !AboutSearch(e)
    requires AgentsOk(s.tabs.agents, home) && Truthful(h, home)
    ensures AgentsOk(Step(s, e, h).tabs.agents, home)
  {
    hide AgentsOk;
    hide Truthful;
    hide FamilyOf;
    hide Step;
    hide FormFrame;
    if AboutGates(e) {
      GatesStepIs(s, e, h);
      GateStepAgentsOk(s, e, h, home);
    } else if AboutAgents(e) {
      AgentsStepIs(s, e, h);
      AgentsStepAgentsOk(s, e, h, home);
    } else if AboutForms(e) {
      FormsStepIs(s, e, h);
      FormsLeaveTabs(s, e, h);
    } else {
      DraftStepIs(s, e, h);
      DraftsLeaveAgents(s, e);
    }
  }

  lemma DraftsLeaveAgents(s: App, e: Event)
    ensures DraftStep(s, e).tabs.agents == s.tabs.agents
  {
    hide PresetPicked;
  }

  lemma FormsLeaveTabs(s: App, e: Event, h: Host)
    requires AboutForms(e)
    ensures FormStep(s, e, h).tabs == s.tabs
  {
    hide FormStep;
    hide Quiet;
  }

  // ------------------------------------------------------------ every run

  /** In every step the host answers truthfully and creates agents under new ids. */
  ghost predicate HonestRun(events: seq<(Event, Host)>, home: Id -> Home) {
    forall k :: 0 <= k < |events| ==>
      Truthful(events[k].1, home) && NewIdIsFresh(Run(Initial, events[..k]), events[k].1, home)
  }

  lemma HonestPrefix(events: seq<(Event, Host)>, home: Id -> Home)
    requires HonestRun(events, home) && events != []
    ensures HonestRun(events[..|events| - 1], home)
    ensures Truthful(Last(events).1, home) && NewIdIsFresh(Run(Initial, events[..|events| - 1]), Last(events).1, home)
  {
    hide Truthful;
    hide NewIdIsFresh;
    hide Run;
    var front := events[..|events| - 1];
    forall k | 0 <= k < |front|
      ensures Truthful(front[k].1, home) && NewIdIsFresh(Run(Initial, front[..k]), front[k].1, home)
    {
      assert front[k] == events[k] && front[..k] == events[..k];
    }
  }

  /** Agent ids never repeat in an honest run, and neither does the stored tab order. */
  lemma {:induction false} HonestRunsStayUnique(events: seq<(Event, Host)>, home: Id -> Home)
    requires HonestRun(events, home)
    ensures AgentsOk(Run(Initial, events).tabs.agents, home)
    ensures Distinct(Run(Initial, events).order)
  {
    hide HonestRun;
    hide Truthful;
    hide NewIdIsFresh;
    hide Step;
    if events != [] {
      HonestPrefix(events, home);
      var front := events[..|events| - 1];
      var (e, h) := Last(events);
      HonestRunsStayUnique(front, home);
      var s := Run(Initial, front);
      StepAgentsOk(s, e, h, home);
      if e.Drag? { DragKeepsOrderDistinct(s, e.agentId, e.tileId, h, home); } else { OtherStepsKeepOrder(s, e, h); }
    }
  }

  lemma DragKeepsOrderDistinct(s: App, agentId: Id, tileId: Id, h: Host, home: Id -> Home)
    requires AgentsOk(s.tabs.agents, home) && Distinct(s.order)
    ensures Distinct(Step(s, Drag(agentId, tileId), h).order)
  {
    hide Step;
    hide TabOrder.Drop;
    hide AgentsOk;
    ListedIsDistinct(s.tabs, home);
    TabOrder.DropKeepsSound(s.order, Listed(s.tabs), agentId, tileId);
    DragOnlyReorders(s, Drag(agentId, tileId), h);
  }

  /** However stale the stored order is, an honest run shows each agent of the selected task
      exactly once. */
  lemma TabBarIsAPermutation(events: seq<(Event, Host)>, home: Id -> Home)
    requires HonestRun(events, home)
    ensures var s := Run(Initial, events);
            && multiset(TabOrder.Ordered(s.order, Listed(s.tabs))) == multiset(Listed(s.tabs))
            && Distinct(AgentIds(TabBar(s)))
            && ShowsInOrder(TabBar(s), s.order, s.tabs)
  {
    hide Run;
    hide HonestRun;
    hide OrderedAgents;
    hide ShowsInOrder;
    HonestRunsStayUnique(events, home);
    var s := Run(Initial, events);
    TabBarInOrder(s.order, s.tabs);
    ListedIsDistinct(s.tabs, home);
    TabOrder.OrderedIsPermutation(s.order, Listed(s.tabs));
    OrderedIds(s.order, AgentsForSelectedTask(s.tabs));
  }

  /** In an honest run the conversation tree the canvas builds over the tab bar exists, cyclic
      parent pointers or not. */
  lemma TreeCanBeBuilt(events: seq<(Event, Host)>, home: Id -> Home)
    requires HonestRun(events, home)
    ensures var entries := Entries(TabBar(Run(Initial, events)));
            Distinct(Ids(entries)) && exists f :: IsForestOf(entries, f)
  {
    hide Run;
    hide HonestRun;
    hide TabBar;
    hide IsForestOf;
    TabBarIsAPermutation(events, home);
    var entries := Entries(TabBar(Run(Initial, events)));
    assert Ids(entries) == AgentIds(TabBar(Run(Initial, events)));
    DistinctIdsNeverRevisit(entries);
    ForestExistsIffNoRevisit(entries);
  }

  // ------------------------------------------------------------ deletions

  lemma HonestHostAgrees(h: Host, agents: seq<AgentStub>, home: Id -> Home)
    requires AgentsOk(agents, home) && Truthful(h, home) && forall a :: a in agents ==> home(a.id).Settled?
    ensures Agrees(h, agents)
  {
    forall a | a in agents ensures SameEntry(h.agent(a.id), a, IdsOfTask(agents, a.taskId)) {
      assert Faithful(a, agents, home) && ReplyOk(h.agent(a.id), a.id, home);
      var listed := OfTask(agents, a.taskId);
      WhereIdsDistinct(agents, (x: AgentStub) => x.taskId == a.taskId);
      forall x | x in IdsOfTask(agents, a.taskId) ensures exists b :: b in agents && b.taskId == a.taskId && b.id == x {
        var k :| 0 <= k < |listed| && AgentIds(listed)[k] == x;
        assert listed[k] in listed;
      }
    }
  }

  /** In every honest run a deletion among settled agents hides no other agent, although the host, which never hears of
      it, goes on naming the deleted agent as a parent. */
  lemma HonestDeletionHidesNobody(events: seq<(Event, Host)>, home: Id -> Home, id: Id, h: Host,
                                  f: seq<Node>, g: seq<Node>)
    requires HonestRun(events, home) && Truthful(h, home)
    requires forall a :: a in Run(Initial, events).tabs.agents ==> home(a.id).Settled?
    requires IsForestOf(Entries(TabBar(Run(Initial, events))), f)
    requires IsForestOf(Entries(TabBar(Step(Run(Initial, events), Delete(id), h))), g)
    ensures forall n :: Within(f, n) && n.id != id ==> Within(g, Prune(n, id))
    ensures forall n, c :: Within(f, n) && n.id == id && c in n.children ==> c in g
    ensures forall n :: Within(g, n) ==> n.id != id
    ensures var s := Run(Initial, events);
            Acyclic(Entries(TabBar(s))) ==> Acyclic(Entries(TabBar(Step(s, Delete(id), h))))
  {
    hide Run;
    hide Step;
    hide HonestRun;
    hide Truthful;
    hide AgentsOk;
    hide Agrees;
    hide TabBar;
    hide IsForestOf;
    hide Acyclic;
    var s := Run(Initial, events);
    HonestRunsStayUnique(events, home);
    HonestHostAgrees(h, s.tabs.agents, home);
    TabBarIsAPermutation(events, home);
    DeleteStepHidesNobody(s, id, h, f, g);
  }
}
