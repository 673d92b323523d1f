/** Task tabs remember their agent: leaving a task and coming back shows the agent that was
    selected, whatever happened to other tasks meanwhile; closing a tab forgets it. */
module TabMemory {
  import opened Basics
  import opened Text
  import opened Agents
  import opened Traces
  import opened AppModel
  import opened AppRuns

  /** The task is open but not selected, and a is remembered for it. */
  ghost predicate Away(t: Tabs, task: Id, a: Id) {
    task in t.open && t.selectedTask != Some(task) && task in t.remembered && t.remembered[task] == a
  }

  /** Whatever list the host answers with, if it answers, the agent is on it. */
  ghost predicate StillListed(c: Connection, h: Host, task: Id, a: Id) {
    c.session.Some? && h.agents(task).Some? ==>
      exists x :: x in h.agents(task).value && x.id == a && x.taskId == task
  }

  /** What a step that found the task away may leave: the task still away, or selected again
      with its agent. */
  ghost predicate AwayOrRestored(s: App, r: App, task: Id, a: Id, h: Host) {
    if r.tabs.selectedTask == Some(task)
    then StillListed(s.conn, h, task, a) ==> r.tabs.selectedAgent == Some(a)
    else Away(r.tabs, task, a)
  }

  // ------------------------------------------------------------ steps that stay

  lemma StayingIsAway(t: Tabs, r: Tabs, task: Id, a: Id)
    requires Away(t, task, a) && Stays(t, r)
    ensures Away(r, task, a)
  {
    assert task in RememberedElsewhere(t) && RememberedElsewhere(t)[task] == a;
    assert task in RememberedElsewhere(r);
  }

  predicate Opens(e: Event) {
    e.Open? || e.Switch? || e.Close? || e.NewTask? || e.SearchPick? || e.SearchReturn?
  }

  lemma OthersStay(s: App, e: Event, h: Host)
    requires !Opens(e)
    ensures Stays(s.tabs, Step(s, e, h).tabs)
  {
    hide Stays;
    hide FamilyOf;
    hide ConnectionStep;
    hide TabStep;
    hide TalkStep;
    hide SearchStep;
    hide GateStep;
    hide AgentsStep;
    hide FormStep;
    hide DraftStep;
    if AboutConnection(e) {
      ConnectionStepStays(s, e, h);
    } else if AboutTabs(e) {
      TabStepStays(s, e, h);
    } else if AboutTalk(e) {
      TalkStepStays(s, e, h);
    } else if AboutSearch(e) {
      SearchStepStays(s, e, h);
    } else if AboutGates(e) {
      GateStepStays(s, e, h);
    } else if AboutAgents(e) {
      AgentsStepStays(s, e, h);
    } else if AboutForms(e) {
      SameTabsStay(s, FormStep(s, e, h));
    } else {
      DraftStepStays(s, e);
    }
  }

  lemma TabStepStays(s: App, e: Event, h: Host)
    requires AboutTabs(e) && !Opens(e)
    ensures Stays(s.tabs, TabStep(s, e, h).tabs)
  {
    hide Stays;
    hide Framed;
    hide SelectAgent;
    hide CreateAgent;
    hide CreateChild;
    hide RemoveAgent;
  }

  lemma TalkStepStays(s: App, e: Event, h: Host)
    requires AboutTalk(e)
    ensures Stays(s.tabs, TalkStep(s, e, h).tabs)
  {
    hide Framed;
    hide ModEnter;
    hide SendComposer;
    hide SteerComposer;
    hide CancelRunningAgent;
    hide WorkerDone;
    hide TickRpc;
    hide RespondApproval;
    hide RememberedElsewhere;
  }

  lemma SearchStepStays(s: App, e: Event, h: Host)
    requires AboutSearch(e) && !Opens(e)
    ensures Stays(s.tabs, SearchStep(s, e, h).tabs)
  {
    hide Stays;
    hide Framed;
    hide EditSearch;
    hide SubmitSearch;
    hide DismissSearch;
  }

  lemma AgentsStepStays(s: App, e: Event, h: Host)
    requires AboutAgents(e)
    ensures Stays(s.tabs, AgentsStep(s, e, h).tabs)
  {
    hide Framed;
    hide Receive;
    hide Deliver;
    hide TabOrder.Drop;
    hide ToggleDir;
    hide SwitchAgent;
    hide UpdateRole;
    hide Find;
    hide SetStatus;
  }

  lemma SameTabsStay(s: App, r: App)
    requires r.tabs == s.tabs
    ensures Stays(s.tabs, r.tabs)
  {
  }

  lemma DraftStepStays(s: App, e: Event)
    ensures Stays(s.tabs, DraftStep(s, e).tabs)
  {
    hide PresetPicked;
  }

  lemma GateStepStays(s: App, e: Event, h: Host)
    requires AboutGates(e)
    ensures Stays(s.tabs, GateStep(s, e, h).tabs)
  {
    hide RequestGate;
    hide WithdrawGate;
    hide ConfirmGate;
    hide RememberedElsewhere;
    if e.Confirm? { ConfirmStays(s, e.gate, e.picked, h); }
  }

  lemma ConnectionStepStays(s: App, e: Event, h: Host)
    requires AboutConnection(e)
    ensures Stays(s.tabs, ConnectionStep(s, e, h).tabs)
  {
    hide TickDiscovery;
    hide ReloadCanvas;
    hide Mon;
    hide Rpcs;
    if e.Discover? { DiscoverStays(s, h); }
  }

  lemma DiscoverStays(s: App, h: Host)
    ensures Stays(s.tabs, TickDiscovery(s, h).tabs)
  {
    hide Mon;
    hide Rpcs;
    hide ApplyDiscovery;
    ApplyDiscoveryStays(s.(conn := s.conn.(pendingDiscover := false)), h);
  }

  lemma ApplyDiscoveryStays(s: App, h: Host)
    ensures Stays(s.tabs, ApplyDiscovery(s, h).tabs)
  {
    hide Mon;
    hide Rpcs;
    hide WsUrl;
    hide Quiet;
    hide ReloadCanvas;
    hide RefreshCatalog;
  }

  lemma ConfirmStays(s: App, g: Gate, picked: bool, h: Host)
    ensures Stays(s.tabs, ConfirmGate(s, g, picked, h).tabs)
  {
    hide Mon;
    hide Rpcs;
    hide AfterGuarded;
    hide Put;
    hide Offered;
    hide Prepared;
    AfterGuardedStays(Emit(Note(CloseGate(s, g), Confirmed(g)), Guarded(g)), g, h);
  }

  lemma AfterGuardedStays(s: App, g: Gate, h: Host)
    ensures Stays(s.tabs, AfterGuarded(s, g, h).tabs)
  {
    hide RefreshCatalog;
    hide ReloadAgents;
    hide LoadSelectedAgent;
    hide LoadedPresets;
    hide Quiet;
  }

  // ------------------------------------------------------------ opening

  /** The agents of a task after its list was replaced are those of the new list. */
  lemma ReloadedList(agents: seq<AgentStub>, items: seq<AgentStub>, task: Id, x: AgentStub)
    requires x in items && x.taskId == task
    ensures x in OfTask(NotOfTask(agents, task) + items, task)
  {
    var both := NotOfTask(agents, task) + items;
    WhereMembers(both, (a: AgentStub) => a.taskId == task, x);
  }

  lemma FindFinds(agents: seq<AgentStub>, x: AgentStub)
    requires x in agents
    ensures Find(agents, x.id) < |agents|
  {
  }

  lemma OpenRestores(s: App, task: Id, a: Id, h: Host)
    requires Opened(s.tabs, task).selectedAgent == Some(a) && StillListed(s.conn, h, task, a)
    ensures OpenTask(s, task, h).tabs.selectedAgent == Some(a)
  {
    hide LoadSelectedAgent;
    hide Find;
    hide Framed;
    hide Mon;
    hide Rpcs;
    if s.conn.session.Some? && h.agents(task).Some? {
      var items := h.agents(task).value;
      var x :| x in items && x.id == a && x.taskId == task;
      ReloadedList(s.tabs.agents, items, task, x);
      FindFinds(OfTask(NotOfTask(s.tabs.agents, task) + items, task), x);
    }
  }

  lemma OpenedAway(t: Tabs, id: Id, task: Id, a: Id)
    requires Away(t, task, a)
    ensures if id == task then Opened(t, id).selectedAgent == Some(a) else Away(Opened(t, id), task, a)
  {
  }

  lemma OpenAway(s: App, id: Id, task: Id, a: Id, h: Host)
    requires Away(s.tabs, task, a)
    ensures AwayOrRestored(s, OpenTask(s, id, h), task, a, h)
  {
    hide OpenTask;
    hide Opened;
    hide Mon;
    hide Rpcs;
    OpenedAway(s.tabs, id, task, a);
    if id == task && StillListed(s.conn, h, task, a) { OpenRestores(s, task, a, h); }
    OpenedSelects(s.tabs, id);
  }

  lemma OpenedSelects(t: Tabs, id: Id)
    ensures Opened(t, id).selectedTask == Some(id)
  {
  }

  lemma CloseAway(s: App, id: Id, task: Id, a: Id, h: Host)
    requires Away(s.tabs, task, a) && id != task
    ensures AwayOrRestored(s, CloseTaskTab(s, id, h), task, a, h)
  {
    hide OpenTask;
    hide Mon;
    hide Rpcs;
    WhereMembers(s.tabs.open, o => o != id, task);
    var t := Closed(s.tabs, id);
    assert Away(t, task, a);
    if s.tabs.selectedTask == Some(id) && t.open != [] {
      OpenAway(s.(tabs := t.(selectedTask := None)), Last(t.open), task, a, h);
    }
  }

  lemma NewTaskAway(s: App, title: string, task: Id, a: Id, h: Host)
    requires Away(s.tabs, task, a)
    ensures AwayOrRestored(s, CreateTask(s, title, h), task, a, h)
  {
    hide OpenTask;
    hide RefreshCatalog;
    hide Framed;
    hide Mon;
    hide Rpcs;
    forall s': App | s'.tabs == s.tabs && s'.conn == s.conn && h.task.Some?
      ensures AwayOrRestored(s, OpenTask(s', h.task.value, h), task, a, h)
    {
      OpenAway(s', h.task.value, task, a, h);
    }
  }

  lemma PickAway(s: App, index: nat, artifactTask: Option<Id>, task: Id, a: Id, h: Host)
    requires Away(s.tabs, task, a)
    ensures AwayOrRestored(s, ActivateSearchResult(s, index, artifactTask, h), task, a, h)
  {
    hide OpenTask;
    hide Framed;
    hide Mon;
    hide Rpcs;
    if index < |s.search.items| {
      OpenAway(s, s.search.items[index].id, task, a, h);
      if artifactTask.Some? { OpenAway(s, artifactTask.value, task, a, h); }
    }
  }

  lemma ReturnAway(s: App, artifactTask: Option<Id>, task: Id, a: Id, h: Host)
    requires Away(s.tabs, task, a)
    ensures AwayOrRestored(s, SearchEnter(s, artifactTask, h), task, a, h)
  {
    hide ActivateSearchResult;
    hide Mon;
    hide Rpcs;
    hide Trim;
    PickAway(s, 0, artifactTask, task, a, h);
    PickAway(SubmitSearch(s, h), 0, artifactTask, task, a, h);
  }

  lemma TabStepAway(s: App, e: Event, h: Host, task: Id, a: Id)
    requires Away(s.tabs, task, a) && e != Close(task) && AboutTabs(e) && Opens(e)
    ensures AwayOrRestored(s, TabStep(s, e, h), task, a, h)
  {
    hide AwayOrRestored;
    hide Stays;
    hide Framed;
    hide Quiet;
    hide CanvasFrame;
    hide OpenTask;
    hide CloseTaskTab;
    hide CreateTask;
    if e.Open? {
      OpenAway(s, e.id, task, a, h);
    } else if e.Switch? {
      SwitchAway(s, e.id, task, a, h);
    } else if e.Close? {
      CloseAway(s, e.id, task, a, h);
    } else {
      NewTaskAway(s, e.title, task, a, h);
    }
  }

  lemma SearchStepAway(s: App, e: Event, h: Host, task: Id, a: Id)
    requires Away(s.tabs, task, a) && AboutSearch(e) && Opens(e)
    ensures AwayOrRestored(s, SearchStep(s, e, h), task, a, h)
  {
    hide AwayOrRestored;
    hide Framed;
    hide ActivateSearchResult;
    hide SearchEnter;
    match e {
      case SearchPick(index, artifactTask) => PickAway(s, index, artifactTask, task, a, h);
      case SearchReturn(artifactTask) => ReturnAway(s, artifactTask, task, a, h);
    }
  }

  /** No step on other tasks loses a remembered agent, and the step that comes back restores it. */
  lemma StepRemembers(s: App, e: Event, h: Host, task: Id, a: Id)
    requires Away(s.tabs, task, a) && e != Close(task)
    ensures AwayOrRestored(s, Step(s, e, h), task, a, h)
  {
    hide Step;
    hide TabStep;
    hide SearchStep;
    hide FormFrame;
    hide Away;
    hide AwayOrRestored;
    if !Opens(e) {
      StepStaysAway(s, e, h, task, a);
    } else if AboutTabs(e) {
      TabsStepIs(s, e, h);
      TabStepAway(s, e, h, task, a);
    } else {
      SearchStepIs(s, e, h);
      SearchStepAway(s, e, h, task, a);
    }
  }

  lemma StepStaysAway(s: App, e: Event, h: Host, task: Id, a: Id)
    requires Away(s.tabs, task, a) && !Opens(e)
    ensures AwayOrRestored(s, Step(s, e, h), task, a, h)
  {
    hide Step;
    OthersStay(s, e, h);
    StayingIsAway(s.tabs, Step(s, e, h).tabs, task, a);
  }

  lemma SwitchAway(s: App, id: Id, task: Id, a: Id, h: Host)
    requires Away(s.tabs, task, a)
    ensures AwayOrRestored(s, SwitchTaskTab(s, id, h), task, a, h)
  {
    hide OpenTask;
    OpenAway(s, id, task, a, h);
  }

  // ------------------------------------------------------------ leaving

  lemma OpenLeaves(s: App, id: Id, task: Id, a: Id, h: Host)
    requires s.tabs.selectedTask == Some(task) && s.tabs.selectedAgent == Some(a) && task in s.tabs.open && id != task
    ensures Away(OpenTask(s, id, h).tabs, task, a)
  {
    hide OpenTask;
    hide Mon;
    hide Rpcs;
  }

  lemma OpenSelects(s: App, id: Id, h: Host)
    ensures OpenTask(s, id, h).tabs.selectedTask == Some(id)
  {
    hide OpenTask;
  }

  lemma StepKeepsTask(s: App, e: Event, h: Host)
    requires !Opens(e)
    ensures Step(s, e, h).tabs.selectedTask == s.tabs.selectedTask
  {
    hide Step;
    OthersStay(s, e, h);
  }

  lemma NewTaskLeaves(s: App, title: string, task: Id, a: Id, h: Host)
    requires s.tabs.selectedTask == Some(task) && s.tabs.selectedAgent == Some(a) && task in s.tabs.open
    requires CreateTask(s, title, h).tabs.selectedTask != Some(task)
    ensures Away(CreateTask(s, title, h).tabs, task, a)
  {
    hide OpenTask;
    hide RefreshCatalog;
    hide Framed;
    hide Away;
    hide Mon;
    hide Rpcs;
    forall s': App | s'.tabs == s.tabs && h.task.Some?
      ensures OpenTask(s', h.task.value, h).tabs.selectedTask == h.task
      ensures h.task.value != task ==> Away(OpenTask(s', h.task.value, h).tabs, task, a)
    {
      OpenSelects(s', h.task.value, h);
      if h.task.value != task { OpenLeaves(s', h.task.value, task, a, h); }
    }
  }

  lemma PickLeaves(s: App, index: nat, artifactTask: Option<Id>, task: Id, a: Id, h: Host)
    requires s.tabs.selectedTask == Some(task) && s.tabs.selectedAgent == Some(a) && task in s.tabs.open
    requires ActivateSearchResult(s, index, artifactTask, h).tabs.selectedTask != Some(task)
    ensures Away(ActivateSearchResult(s, index, artifactTask, h).tabs, task, a)
  {
    hide OpenTask;
    hide Framed;
    hide Away;
    hide Mon;
    hide Rpcs;
    var item := s.search.items[index];
    OpenSelects(s, item.id, h);
    if item.kind.TaskHit? { OpenLeaves(s, item.id, task, a, h); }
    if artifactTask.Some? && artifactTask.value != task { OpenLeaves(s, artifactTask.value, task, a, h); }
  }

  lemma ReturnLeaves(s: App, artifactTask: Option<Id>, task: Id, a: Id, h: Host)
    requires s.tabs.selectedTask == Some(task) && s.tabs.selectedAgent == Some(a) && task in s.tabs.open
    requires SearchEnter(s, artifactTask, h).tabs.selectedTask != Some(task)
    ensures Away(SearchEnter(s, artifactTask, h).tabs, task, a)
  {
    hide ActivateSearchResult;
    hide Away;
    hide Mon;
    hide Rpcs;
    hide Trim;
    if s.search.ran && s.search.items != [] {
      PickLeaves(s, 0, artifactTask, task, a, h);
    } else if SubmitSearch(s, h).search.items != [] {
      PickLeaves(SubmitSearch(s, h), 0, artifactTask, task, a, h);
    }
  }

  lemma TabStepLeaves(s: App, e: Event, h: Host, task: Id, a: Id)
    requires s.tabs.selectedTask == Some(task) && s.tabs.selectedAgent == Some(a) && task in s.tabs.open
    requires e.Open? || e.Switch? || e.NewTask? || (e.Close? && e.id != task)
    requires Step(s, e, h).tabs.selectedTask != Some(task)
    ensures Away(Step(s, e, h).tabs, task, a)
  {
    hide Framed;
    hide Mon;
    hide Rpcs;
    hide OpenTask;
    hide Away;
    hide CreateTask;
    hide Step;
    TabsStepIs(s, e, h);
    if e.NewTask? {
      NewTaskLeaves(s, e.title, task, a, h);
    } else if !e.Close? {
      OpenSelects(s, e.id, h);
      OpenLeaves(s, e.id, task, a, h);
    }
  }

  lemma SearchStepLeaves(s: App, e: Event, h: Host, task: Id, a: Id)
    requires s.tabs.selectedTask == Some(task) && s.tabs.selectedAgent == Some(a) && task in s.tabs.open
    requires e.SearchPick? || e.SearchReturn?
    requires Step(s, e, h).tabs.selectedTask != Some(task)
    ensures Away(Step(s, e, h).tabs, task, a)
  {
    hide Stays;
    hide OpenTask;
    hide Framed;
    hide ActivateSearchResult;
    hide SearchEnter;
    hide Away;
    hide Step;
    SearchStepIs(s, e, h);
    if e.SearchPick? {
      PickLeaves(s, e.index, e.artifactTask, task, a, h);
    } else {
      ReturnLeaves(s, e.artifactTask, task, a, h);
    }
  }

  /** Any step that leaves a task other than by closing it remembers its agent. */
  lemma LeavingRemembers(s: App, e: Event, h: Host, task: Id, a: Id)
    requires TabsOk(s.tabs) && s.tabs.selectedTask == Some(task) && s.tabs.selectedAgent == Some(a)
    requires e != Close(task) && Step(s, e, h).tabs.selectedTask != Some(task)
    ensures Away(Step(s, e, h).tabs, task, a)
  {
    hide Step;
    hide Away;
    if !Opens(e) {
      StepKeepsTask(s, e, h);
    } else if e.Open? || e.Switch? || e.Close? || e.NewTask? {
      TabStepLeaves(s, e, h, task, a);
    } else {
      SearchStepLeaves(s, e, h, task, a);
    }
  }

  // ------------------------------------------------------------ coming back

  /** A task left alone for any number of steps, none of which closes its tab, comes back with
      its agent. */
  lemma {:induction false} StaysAway(s: App, events: seq<(Event, Host)>, task: Id, a: Id)
    requires Away(s.tabs, task, a)
    requires forall k :: 0 <= k < |events| ==> events[k].0 != Close(task)
    requires forall k :: 0 <= k <= |events| ==> Run(s, events[..k]).tabs.selectedTask != Some(task)
    ensures Away(Run(s, events).tabs, task, a)
  {
    hide Step;
    hide Away;
    assert events[..|events|] == events;
    if events != [] {
      var front := events[..|events| - 1];
      forall k | 0 <= k <= |front| ensures Run(s, front[..k]).tabs.selectedTask != Some(task) {
        assert front[..k] == events[..k];
      }
      StaysAway(s, front, task, a);
      StepRemembers(Run(s, front), Last(events).0, Last(events).1, task, a);
    }
  }

  /** Leaving a task and coming back: the first event leaves, the last one comes back, nothing
      between shows the task or closes its tab. Then the agent selected on leaving is selected
      again, provided the host's list, if there is one, still has it. */
  lemma LeaveAndComeBack(s: App, first: (Event, Host), between: seq<(Event, Host)>, back: (Event, Host),
                         task: Id, a: Id)
    requires TabsOk(s.tabs) && s.tabs.selectedTask == Some(task) && s.tabs.selectedAgent == Some(a)
    requires first.0 != Close(task) && back.0 != Close(task)
    requires forall k :: 0 <= k < |between| ==> between[k].0 != Close(task)
    requires var left := Step(s, first.0, first.1);
             forall k :: 0 <= k <= |between| ==> Run(left, between[..k]).tabs.selectedTask != Some(task)
    requires var before := Run(Step(s, first.0, first.1), between);
             && Step(before, back.0, back.1).tabs.selectedTask == Some(task)
             && StillListed(before.conn, back.1, task, a)
    ensures Step(Run(Step(s, first.0, first.1), between), back.0, back.1).tabs.selectedAgent == Some(a)
  {
    hide Step;
    hide Away;
    hide StillListed;
    var left := Step(s, first.0, first.1);
    assert left == Run(left, between[..0]);
    LeavingRemembers(s, first.0, first.1, task, a);
    StaysAway(left, between, task, a);
    StepRemembers(Run(left, between), back.0, back.1, task, a);
  }

  // ------------------------------------------------------------ closing

  /** Closing a tab forgets the task, selected or not: it is no longer open or selected, no
      agent is remembered for it and no approval of it is pending. */
  lemma CloseForgets(s: App, task: Id, h: Host)
    requires TabsOk(s.tabs)
    ensures var t := Step(s, Close(task), h).tabs;
            && task !in t.open && t.selectedTask != Some(task) && task !in t.remembered
            && forall k :: k in t.approvals ==> t.approvals[k].taskId != task
  {
    hide OpenTask;
    hide Framed;
    hide Mon;
    hide Rpcs;
    ClosedOk(s.tabs, task);
    var t := Closed(s.tabs, task);
    if t.open != [] { assert Last(t.open) in t.open; }
  }
}
