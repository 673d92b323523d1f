/** What a step leaves behind, said of the state before and after it. */
module Effects {
  import opened Basics
  import opened Text
  import opened Agents
  import opened A2a
  import opened Traces
  import opened AppModel
  import opened AppRuns
  import opened RunFacts
  import opened Commands
  import Exchange

  // ------------------------------------------------------------ the agent shown

  predicate OfShownTask(t: Tabs, a: AgentStub) {
    t.selectedTask == Some(a.taskId)
  }

  /** One called id if that is given, or any. */
  predicate Fits(a: AgentStub, id: Option<Id>) {
    id.None? || id == Some(a.id)
  }

  /** a is the first agent of the selected task that fits. */
  ghost predicate FirstThat(t: Tabs, id: Option<Id>, a: AgentStub) {
    exists k :: 0 <= k < |t.agents| && t.agents[k] == a && OfShownTask(t, a) && Fits(a, id)
                && forall j :: 0 <= j < k ==> !(OfShownTask(t, t.agents[j]) && Fits(t.agents[j], id))
  }

  ghost predicate Nobody(t: Tabs, id: Option<Id>) {
    forall a :: a in t.agents && OfShownTask(t, a) ==> !Fits(a, id)
  }

  /** Shown is the first agent of the selected task with the selected id, else the first one of that
      task, else nobody. */
  lemma ShownAgentIs(t: Tabs)
    ensures match SelectedAgent(t)
            case None => Nobody(t, None)
            case Some(a) =>
              if t.selectedAgent.None? || Nobody(t, t.selectedAgent) then FirstThat(t, None, a)
              else FirstThat(t, t.selectedAgent, a)
  {
    hide FirstThat;
    hide Picks;
    if t.selectedTask.Some? {
      var keep := (a: AgentStub) => a.taskId == t.selectedTask.value;
      var listed := OfTask(t.agents, t.selectedTask.value);
      var at := WherePicks(t.agents, keep);
      PicksInRange(t.agents, keep, at);
      TaskMembers(t);
      if t.selectedAgent.Some? {
        var k := Find(listed, t.selectedAgent.value);
        if k < |listed| { FirstAt(t, at, t.selectedAgent, k); }
      }
      if listed != [] { FirstAt(t, at, None, 0); }
    }
  }

  lemma TaskMembers(t: Tabs)
    requires t.selectedTask.Some?
    ensures forall a :: a in OfTask(t.agents, t.selectedTask.value) <==> a in t.agents && OfShownTask(t, a)
  {
    var keep := (a: AgentStub) => a.taskId == t.selectedTask.value;
    forall a ensures a in OfTask(t.agents, t.selectedTask.value) <==> a in t.agents && OfShownTask(t, a) {
      WhereMembers(t.agents, keep, a);
    }
  }

  lemma FirstAt(t: Tabs, at: seq<nat>, id: Option<Id>, k: nat)
    requires t.selectedTask.Some? && Picks(t.agents, (a: AgentStub) => a.taskId == t.selectedTask.value, at)
    requires k < |at| && forall j :: 0 <= j < |at| ==> at[j] < |t.agents|
    requires Fits(t.agents[at[k]], id) && forall j :: 0 <= j < k ==> !Fits(t.agents[at[j]], id)
    ensures FirstThat(t, id, t.agents[at[k]])
  {
    assert at[k] in at;
    forall j: nat | j < at[k] ensures !(OfShownTask(t, t.agents[j]) && Fits(t.agents[j], id)) {
      if OfShownTask(t, t.agents[j]) {
        assert j in at;
        var i :| 0 <= i < |at| && at[i] == j;
        assert i < k;
      }
    }
  }

  /** The first agent called id is replaced by a, and nothing else changed. */
  ghost predicate FirstIs(before: seq<AgentStub>, id: Id, a: AgentStub, after: seq<AgentStub>) {
    && |after| == |before|
    && forall k :: 0 <= k < |before| ==>
         after[k] == if before[k].id == id && forall j :: 0 <= j < k ==> before[j].id != id then a else before[k]
  }

  lemma AnsweredIs(agents: seq<AgentStub>, id: Id, reply: Option<AgentStub>)
    ensures if reply.Some? then FirstIs(agents, id, reply.value, Answered(agents, id, reply))
            else Answered(agents, id, reply) == agents
  {
    var k := Find(agents, id);
    assert forall j :: 0 <= j < k ==> agents[j].id != id;
  }

  /** after is the client's list with the entry of the shown agent as the host gave it, if the host is
      asked and answers. */
  ghost predicate ShownWasRead(t: Tabs, online: bool, h: Host, after: seq<AgentStub>) {
    var shown := SelectedAgent(t);
    if online && shown.Some? && h.agent(shown.value.id).Some?
    then FirstIs(t.agents, shown.value.id, h.agent(shown.value.id).value, after)
    else after == t.agents
  }

  /** The RPCs that read the shown agent. */
  function ShownReads(t: Tabs, online: bool): seq<Rpc> {
    var shown := SelectedAgent(t);
    if online && shown.Some? then [AgentGet(shown.value.id), AgentContext(shown.value.id)] else []
  }

  lemma LoadReadsShown(s: App, h: Host)
    ensures var r, online := LoadSelectedAgent(s, h), s.conn.session.Some?;
            && ShownWasRead(s.tabs, online, h, r.tabs.agents)
            && r.tabs == s.tabs.(agents := r.tabs.agents)
            && Rpcs(r.trace) == Rpcs(s.trace) + ShownReads(s.tabs, online)
  {
    hide SelectedAgent;
    hide Answered;
    hide FirstIs;
    hide MergeAll;
    hide Rpcs;
    hide Mon;
    hide Quiet;
    assert Rpcs(s.trace) + [] == Rpcs(s.trace);
    var shown := SelectedAgent(s.tabs);
    if shown.Some? {
      var id := shown.value.id;
      AnsweredIs(s.tabs.agents, id, h.agent(id));
      assert Rpcs(s.trace) + [AgentGet(id)] + [AgentContext(id)] == Rpcs(s.trace) + [AgentGet(id), AgentContext(id)];
    }
  }

  // ------------------------------------------------------------ searching

  /** Submitting answers the search text: a blank text closes the popup; a new text is sent if there is
      a session that takes it, and the popup shows the host's items, none if it fails; otherwise the
      popup stays. The text stays and no edit is pending. */
  ghost predicate SearchAnswered(s: Search, session: Option<Session>, h: Host, r: Search) {
    var q := Trim(s.text);
    && r.text == s.text && r.editedAt == None
    && if q == "" then r.items == [] && !r.ran && r.lastQ == None
       else if (s.ran && s.lastQ == Some(q)) || session.None? || session.value.searchRejected then
         r.items == s.items && r.ran == s.ran && r.lastQ == s.lastQ
       else
         r.ran && r.lastQ == Some(q) && r.items == if h.query.Some? then h.query.value else []
  }

  lemma SubmitAnswers(s: App, h: Host)
    ensures SearchAnswered(s.search, s.conn.session, h, SubmitSearch(s, h).search)
  {
    hide Trim;
    hide Framed;
    hide Stays;
    hide Mon;
    hide Rpcs;
  }

  /** 350 ms after the last edit the tick submits the search, and before that it leaves it alone. */
  lemma TickSearches(s: App, h: Host)
    ensures var r := Step(s, Tick, h);
            if DebounceIsOver(s) then SearchAnswered(s.search, s.conn.session, h, r.search) else r.search == s.search
    ensures DebounceIsOver(s) && Trim(s.search.text) != "" && s.conn.session.Some?
            && !s.conn.session.value.searchRejected && !(s.search.ran && s.search.lastQ == Some(Trim(s.search.text)))
            ==> Rpcs(Step(s, Tick, h).trace) == Rpcs(s.trace) + [SearchQuery(Trim(s.search.text))]
    ensures !DebounceIsOver(s) || Trim(s.search.text) == "" ==> Rpcs(Step(s, Tick, h).trace) == Rpcs(s.trace)
  {
    hide Step;
    hide ApplyCancels;
    hide TickSearchDebounce;
    hide SearchAnswered;
    hide Trim;
    hide Rpcs;
    TickIs(s, h);
    var drained := s.(cancel := s.cancel.(results := []));
    CancelsSendNothing(drained, s.cancel.results);
    CancelsAreSilent(drained, s.cancel.results);
    DebounceSubmits(ApplyCancels(drained, s.cancel.results), h);
    assert Rpcs(s.trace) + [] == Rpcs(s.trace);
  }

  lemma TickIs(s: App, h: Host)
    ensures Step(s, Tick, h)
            == TickSearchDebounce(ApplyCancels(s.(cancel := s.cancel.(results := [])), s.cancel.results), h)
  {
    hide Step;
    hide ApplyCancels;
    hide TickSearchDebounce;
    hide Framed;
    hide Stays;
    TalkStepIs(s, Tick, h);
  }

  /** What submitting this search sends. */
  function Query(search: Search, session: Option<Session>): seq<Rpc> {
    var q := Trim(search.text);
    if q != "" && !(search.ran && search.lastQ == Some(q)) && session.Some? && !session.value.searchRejected
    then [SearchQuery(q)] else []
  }

  lemma DebounceSubmits(s: App, h: Host)
    ensures var r := TickSearchDebounce(s, h);
            if DebounceIsOver(s) then
              && SearchAnswered(s.search, s.conn.session, h, r.search)
              && Rpcs(r.trace) == Rpcs(s.trace) + Query(s.search, s.conn.session)
            else r == s
  {
    hide SubmitSearch;
    hide SearchAnswered;
    hide Query;
    hide Framed;
    hide Stays;
    hide Mon;
    hide Rpcs;
    var noted := Note(s, Debounced(s.now));
    SubmitAnswers(noted, h);
    SubmitRpcs(noted, h);
    assert Rpcs(s.trace) + [] == Rpcs(s.trace);
  }

  lemma {:induction false} CancelsAreSilent(s: App, dones: seq<CancelDone>)
    ensures Rpcs(ApplyCancels(s, dones).trace) == Rpcs(s.trace)
  {
    hide SetStatus;
    hide FindEither;
    hide Framed;
    hide Stays;
    hide Mon;
    hide Rpcs;
    if dones != [] {
      var before := ApplyCancels(s, dones[..|dones| - 1]);
      CancelsAreSilent(s, dones[..|dones| - 1]);
      assert Rpcs(before.trace) + [] == Rpcs(before.trace);
    }
  }

  lemma SubmitRpcs(s: App, h: Host)
    ensures Rpcs(SubmitSearch(s, h).trace) == Rpcs(s.trace) + Query(s.search, s.conn.session)
  {
    hide Trim;
    hide Framed;
    hide Stays;
    hide Mon;
    hide Rpcs;
    assert Rpcs(s.trace) + [] == Rpcs(s.trace);
  }

  /** The button does at once what the tick does after the debounce. */
  lemma SubmitButtonAnswers(s: App, h: Host)
    ensures SearchAnswered(s.search, s.conn.session, h, Step(s, SearchSubmit, h).search)
  {
    hide Step;
    hide SubmitSearch;
    hide SearchAnswered;
    SubmitIs(s, h);
    SubmitAnswers(s, h);
  }

  /** An edit made at time at waits for the debounce. */
  predicate Waiting(s: App, text: string, at: nat) {
    s.search.text == text && s.search.editedAt == Some(at)
  }

  lemma EditWaits(s: App, text: string, h: Host)
    ensures Waiting(Step(s, SearchEdit(text), h), text, s.now)
  {
    hide Step;
    hide Mon;
    hide Rpcs;
    SearchStepIs(s, SearchEdit(text), h);
  }

  /** No step but one about the search, or the tick after the debounce, touches it. */
  lemma OthersKeepWaiting(s: App, e: Event, h: Host)
    requires !AboutSearch(e) && !(e.Tick? && DebounceIsOver(s))
    ensures Step(s, e, h).search == s.search
  {
    hide Step;
    hide FamilyOf;
    hide DebounceIsOver;
    if AboutConnection(e) || AboutTabs(e) || AboutGates(e) {
      StepsKeepSearch(s, e, h);
    } else if e.Tick? {
      TickSearches(s, h);
    } else {
      OtherStepsKeepSearch(s, e, h);
    }
  }

  lemma StepsKeepSearch(s: App, e: Event, h: Host)
    requires AboutConnection(e) || AboutTabs(e) || AboutGates(e)
    ensures Step(s, e, h).search == s.search
  {
    hide ConnectionStep;
    hide TabStep;
    hide GateStep;
    hide FamilyOf;
    if AboutConnection(e) {
      ConnectionKeepsSearch(s, e, h);
    } else if AboutTabs(e) {
      TabsKeepSearch(s, e, h);
    } else {
      GatesKeepSearch(s, e, h);
    }
  }

  lemma OtherStepsKeepSearch(s: App, e: Event, h: Host)
    requires !AboutConnection(e) && !AboutTabs(e) && !AboutGates(e) && !AboutSearch(e) && !e.Tick?
    ensures Step(s, e, h).search == s.search
  {
    hide TalkStep;
    hide AgentsStep;
    hide FormStep;
    hide DraftStep;
    hide FamilyOf;
    if AboutTalk(e) {
      TalkKeepsSearch(s, e, h);
    } else if AboutAgents(e) {
      AgentsKeepSearch(s, e, h);
    } else if AboutForms(e) {
      FormsKeepSearch(s, e, h);
    } else {
      DraftsKeepSearch(s, e);
    }
  }

  lemma ConnectionKeepsSearch(s: App, e: Event, h: Host)
    requires AboutConnection(e)
    ensures ConnectionStep(s, e, h).search == s.search
  {
    hide ReloadCanvas;
    hide RefreshCatalog;
    hide Quiet;
    hide WsUrl;
    hide Mon;
    hide Rpcs;
  }

  lemma TabsKeepSearch(s: App, e: Event, h: Host)
    requires AboutTabs(e)
    ensures TabStep(s, e, h).search == s.search
  {
    hide OpenTask;
    hide LoadSelectedAgent;
    hide RefreshCatalog;
    hide Closed;
    hide Remember;
    hide Without;
    hide WithoutMentions;
    hide AgentsForSelectedTask;
    hide SelectedAgent;
    hide Trim;
    hide Quiet;
    hide Framed;
    hide Stays;
    hide Mon;
    hide Rpcs;
    if e.NewTask? || e.NewAgent? || e.NewChild? { CreationsKeepSearch(s, e, h); }
  }

  lemma CreationsKeepSearch(s: App, e: Event, h: Host)
    requires e.NewTask? || e.NewAgent? || e.NewChild?
    ensures TabStep(s, e, h).search == s.search
  {
    hide OpenTask;
    hide LoadSelectedAgent;
    hide RefreshCatalog;
    hide Remember;
    hide SelectedAgent;
    hide Trim;
    hide Quiet;
    hide Framed;
    hide Stays;
    hide Mon;
    hide Rpcs;
  }

  lemma TalkKeepsSearch(s: App, e: Event, h: Host)
    requires AboutTalk(e) && !e.Tick?
    ensures TalkStep(s, e, h).search == s.search
  {
    hide SelectedAgent;
    hide Trim;
    hide Framed;
    hide Stays;
    hide Mon;
    hide Rpcs;
  }

  lemma GatesKeepSearch(s: App, e: Event, h: Host)
    requires AboutGates(e)
    ensures GateStep(s, e, h).search == s.search
  {
    hide RefreshCatalog;
    hide ReloadAgents;
    hide LoadSelectedAgent;
    hide LoadedPresets;
    hide RequestGate;
    hide WithdrawGate;
    hide Offered;
    hide Prepared;
    hide Put;
    hide Quiet;
    hide Mon;
    hide Rpcs;
  }

  lemma AgentsKeepSearch(s: App, e: Event, h: Host)
    requires AboutAgents(e)
    ensures AgentsStep(s, e, h).search == s.search
  {
    hide RefreshAgent;
    hide ApprovalAsked;
    hide StatusChanged;
    hide SelectedAgent;
    hide Find;
    hide Merge;
    hide Trim;
    hide Framed;
    hide Stays;
    hide Mon;
    hide Rpcs;
  }

  lemma FormsKeepSearch(s: App, e: Event, h: Host)
    requires AboutForms(e)
    ensures FormStep(s, e, h).search == s.search
  {
    hide FormStep;
    hide Quiet;
  }

  lemma DraftsKeepSearch(s: App, e: Event)
    ensures DraftStep(s, e).search == s.search
  {
    hide PresetPicked;
  }

  /** Nothing in the run touches the search while an edit waits. */
  ghost predicate LeavesAlone(s: App, events: seq<(Event, Host)>) {
    forall k :: 0 <= k < |events| ==>
      !AboutSearch(events[k].0) && !(events[k].0.Tick? && DebounceIsOver(Run(s, events[..k])))
  }

  lemma {:induction false} StillWaiting(s: App, events: seq<(Event, Host)>, text: string, at: nat)
    requires Waiting(s, text, at) && LeavesAlone(s, events)
    ensures Run(s, events).search == s.search
  {
    hide Step;
    hide DebounceIsOver;
    if events != [] {
      var n := |events| - 1;
      var front := events[..n];
      assert forall k :: 0 <= k <= n ==> front[..k] == events[..k];
      assert forall k :: 0 <= k < n ==> front[k] == events[k];
      StillWaiting(s, front, text, at);
      assert events[..n] == front;
      OthersKeepWaiting(Run(s, front), events[n].0, events[n].1);
    }
  }

  /** What the user types is answered: whatever happens elsewhere in between, the first tick 350 ms or
      more after the last edit submits that text. */
  lemma EditIsAnswered(s: App, text: string, h0: Host, between: seq<(Event, Host)>, h: Host)
    requires var r := Run(Step(s, SearchEdit(text), h0), between);
             LeavesAlone(Step(s, SearchEdit(text), h0), between) && s.now + 350 <= r.now
    ensures var r := Run(Step(s, SearchEdit(text), h0), between);
            && r.search.text == text
            && SearchAnswered(r.search, r.conn.session, h, Step(r, Tick, h).search)
  {
    hide Step;
    hide Run;
    hide LeavesAlone;
    hide SearchAnswered;
    EditWaits(s, text, h0);
    var edited := Step(s, SearchEdit(text), h0);
    StillWaiting(edited, between, text, s.now);
    TickSearches(Run(edited, between), h);
  }

  // ------------------------------------------------------------ opening and closing

  /** open without id, in order. */
  ghost predicate OpenWithout(before: seq<Id>, id: Id, after: seq<Id>) {
    exists at :: Picks(before, o => o != id, at) && |after| == |at|
                 && forall i :: 0 <= i < |at| ==> after[i] == before[at[i]]
  }

  /** Closing takes the tab away. If it was shown, the last tab left is shown, or the task list when
      none is left; otherwise what is shown stays. */
  lemma CloseShowsLast(s: App, id: Id, h: Host)
    ensures var t, r := s.tabs, Step(s, Close(id), h).tabs;
            && OpenWithout(t.open, id, r.open)
            && if t.selectedTask != Some(id) then
                 r.selectedTask == t.selectedTask && r.selectedAgent == t.selectedAgent && r.screen == t.screen
               else if r.open == [] then
                 r.selectedTask == None && r.selectedAgent == None && r.screen == TasksScreen
               else
                 r.selectedTask == Some(r.open[|r.open| - 1]) && r.screen == Canvas
  {
    hide Step;
    hide OpenTask;
    hide Closed;
    hide Opened;
    hide OpenWithout;
    hide Framed;
    hide Quiet;
    TabsStepIs(s, Close(id), h);
    ClosedIs(s.tabs, id);
    var t := Closed(s.tabs, id);
    if t.open != [] { OpenedAgain(t.(selectedTask := None), Last(t.open)); }
  }

  lemma ClosedIs(t: Tabs, id: Id)
    ensures var r := Closed(t, id);
            && OpenWithout(t.open, id, r.open)
            && r.selectedTask == t.selectedTask && r.selectedAgent == t.selectedAgent && r.screen == t.screen
  {
    var at := WherePicks(t.open, o => o != id);
  }

  lemma OpenedAgain(t: Tabs, id: Id)
    requires id in t.open
    ensures Opened(t, id).open == t.open && Opened(t, id).selectedTask == Some(id) && Opened(t, id).screen == Canvas
  {
  }

  /** The agents of other tasks as they were, then the host's list. */
  ghost predicate ListReplaced(before: seq<AgentStub>, task: Id, items: seq<AgentStub>, after: seq<AgentStub>) {
    exists at :: Picks(before, (a: AgentStub) => a.taskId != task, at) && |after| == |at| + |items|
                 && (forall i :: 0 <= i < |at| ==> after[i] == before[at[i]])
                 && forall i :: 0 <= i < |items| ==> after[|at| + i] == items[i]
  }

  /** x is the first agent of the task in a list, or nothing if there is none. */
  ghost predicate FirstOfTask(items: seq<AgentStub>, task: Id, x: Option<Id>) {
    if x.None? then forall a :: a in items ==> a.taskId != task
    else exists k :: 0 <= k < |items| && items[k].taskId == task && items[k].id == x.value
                     && forall j :: 0 <= j < k ==> items[j].taskId != task
  }

  ghost predicate ListsAgent(items: seq<AgentStub>, task: Id, x: Option<Id>) {
    exists a :: a in items && a.taskId == task && x == Some(a.id)
  }

  lemma FirstOfTaskIs(items: seq<AgentStub>, task: Id)
    ensures FirstOfTask(items, task, FirstId(OfTask(items, task)))
  {
    var keep := (a: AgentStub) => a.taskId == task;
    var at := WherePicks(items, keep);
    if at == [] {
      forall a | a in items ensures a.taskId != task { WhereMembers(items, keep, a); }
    } else {
      assert at[0] in at;
      forall j: nat | j < at[0] ensures items[j].taskId != task {
        assert j in at <==> keep(items[j]);
      }
    }
  }

  /** After the list of a task is read: the selected agent stays if the list has it, else the first
      listed one is selected. */
  lemma ReloadSelects(s: App, task: Id, h: Host)
    requires s.conn.session.Some? && h.agents(task).Some?
    ensures var r, items := ReloadAgents(s, task, h).tabs, h.agents(task).value;
            && ListReplaced(s.tabs.agents, task, items, r.agents)
            && if s.tabs.selectedAgent.Some? && ListsAgent(items, task, s.tabs.selectedAgent)
               then r.selectedAgent == s.tabs.selectedAgent else FirstOfTask(items, task, r.selectedAgent)
  {
    hide Mon;
    hide Rpcs;
    hide Quiet;
    hide ListReplaced;
    hide ListsAgent;
    hide FirstOfTask;
    hide NotOfTask;
    hide OfTask;
    hide Find;
    hide FirstId;
    var items := h.agents(task).value;
    ListIsReplaced(s.tabs.agents, task, items);
    OfTaskConcat(s.tabs.agents, items, task);
    FirstOfTaskIs(items, task);
    if s.tabs.selectedAgent.Some? { ListsIffFound(items, task, s.tabs.selectedAgent.value); }
  }

  lemma ListIsReplaced(agents: seq<AgentStub>, task: Id, items: seq<AgentStub>)
    ensures ListReplaced(agents, task, items, NotOfTask(agents, task) + items)
  {
    hide Picks;
    var at := WherePicks(agents, (a: AgentStub) => a.taskId != task);
    PicksInRange(agents, (a: AgentStub) => a.taskId != task, at);
  }

  lemma OfTaskConcat(agents: seq<AgentStub>, items: seq<AgentStub>, task: Id)
    ensures OfTask(NotOfTask(agents, task) + items, task) == OfTask(items, task)
  {
    var keep := (a: AgentStub) => a.taskId == task;
    var others := NotOfTask(agents, task);
    WhereConcat(others, items, keep);
    forall a | a in others ensures !keep(a) { WhereMembers(agents, (a: AgentStub) => a.taskId != task, a); }
    WhereNone(others, keep);
  }

  lemma ListsIffFound(items: seq<AgentStub>, task: Id, x: Id)
    ensures ListsAgent(items, task, Some(x)) <==> Find(OfTask(items, task), x) < |OfTask(items, task)|
  {
    var keep := (a: AgentStub) => a.taskId == task;
    var listed := OfTask(items, task);
    var k := Find(listed, x);
    if k < |listed| { WhereMembers(items, keep, listed[k]); }
    if ListsAgent(items, task, Some(x)) {
      var a :| a in items && a.taskId == task && x == a.id;
      WhereMembers(items, keep, a);
      var j :| 0 <= j < |listed| && listed[j] == a;
    }
  }

  /** The agent remembered for a task when it is opened from here. */
  function RememberedFor(t: Tabs, id: Id): Option<Id> {
    if t.selectedTask == Some(id) && t.selectedAgent.Some? then t.selectedAgent
    else if id in t.remembered then Some(t.remembered[id]) else None
  }

  /** The agents and the selection after the canvas of a task was read: the host's list in place of the
      old one, the agent wanted selected if it is listed, else the first; nothing without an answer. */
  ghost predicate CanvasIsRead(agents: seq<AgentStub>, wanted: Option<Id>, online: bool, task: Id, h: Host, r: Tabs) {
    if !online || h.agents(task).None? then
      r.selectedAgent == wanted && ShownWasRead(r.(agents := agents), online, h, r.agents)
    else
      var items := h.agents(task).value;
      && (if wanted.Some? && ListsAgent(items, task, wanted) then r.selectedAgent == wanted
          else FirstOfTask(items, task, r.selectedAgent))
      && exists read :: ListReplaced(agents, task, items, read) && ShownWasRead(r.(agents := read), true, h, r.agents)
  }

  lemma ReloadReads(s: App, task: Id, h: Host)
    ensures var r := ReloadCanvas(s, task, h).tabs;
            CanvasIsRead(s.tabs.agents, s.tabs.selectedAgent, s.conn.session.Some?, task, h, r)
  {
    hide ReloadAgents;
    hide LoadSelectedAgent;
    hide ListReplaced;
    hide FirstOfTask;
    hide ListsAgent;
    hide ShownWasRead;
    hide CanvasFrame;
    hide Mon;
    hide Rpcs;
    var empty := s.(dirs := Dirs(map[], {}));
    var read := ReloadAgents(empty, task, h);
    LoadReadsShown(read, h);
    assert ReloadCanvas(s, task, h).tabs.(agents := read.tabs.agents) == read.tabs;
    if s.conn.session.Some? && h.agents(task).Some? {
      ReloadSelects(empty, task, h);
    } else {
      UnreadStays(empty, task, h);
    }
  }

  /** The list is asked for, and then the selected agent and its transcript. */
  lemma ReloadAsks(s: App, task: Id, h: Host)
    requires s.tabs.selectedTask == Some(task) && s.conn.session.Some? && h.agents(task).Some?
    ensures var r := ReloadCanvas(s, task, h);
            Rpcs(r.trace) == Rpcs(s.trace) + [AgentList(task)]
              + if r.tabs.selectedAgent.Some?
                then [AgentGet(r.tabs.selectedAgent.value), AgentContext(r.tabs.selectedAgent.value)] else []
  {
    hide ReloadAgents;
    hide LoadSelectedAgent;
    hide Rpcs;
    hide Mon;
    hide CanvasFrame;
    var empty := s.(dirs := Dirs(map[], {}));
    ListIsAsked(empty, task, h);
    var read := ReloadAgents(empty, task, h);
    SelectedIsShown(empty, task, h);
    LoadReadsShown(read, h);
  }

  lemma ListIsAsked(s: App, task: Id, h: Host)
    requires s.conn.session.Some?
    ensures Rpcs(ReloadAgents(s, task, h).trace) == Rpcs(s.trace) + [AgentList(task)]
    ensures ReloadAgents(s, task, h).conn == s.conn && ReloadAgents(s, task, h).tabs.selectedTask == s.tabs.selectedTask
  {
    hide Rpcs;
    hide Mon;
    hide Quiet;
  }

  lemma SelectedIsShown(s: App, task: Id, h: Host)
    requires s.tabs.selectedTask == Some(task) && s.conn.session.Some? && h.agents(task).Some?
    ensures var r := ReloadAgents(s, task, h).tabs;
            if r.selectedAgent.None? then SelectedAgent(r).None?
            else SelectedAgent(r).Some? && SelectedAgent(r).value.id == r.selectedAgent.value
  {
    hide Rpcs;
    hide Mon;
    hide Quiet;
    hide OfTask;
    hide NotOfTask;
  }

  /** Opening shows the task on the canvas, in a tab of its own behind the others if it had none, with the
      agent remembered for it if that is still listed. Directories are listed anew. */
  lemma OpenShows(s: App, id: Id, h: Host)
    ensures var t, r := s.tabs, Step(s, Open(id), h).tabs;
            && r.selectedTask == Some(id) && r.screen == Canvas
            && r.open == (if id in t.open then t.open else t.open + [id])
            && CanvasIsRead(t.agents, RememberedFor(t, id), s.conn.session.Some?, id, h, r)
            && Step(s, Open(id), h).dirs == Dirs(map[], {})
    ensures s.conn.session.Some? && h.agents(id).Some? ==>
              var picked := Step(s, Open(id), h).tabs.selectedAgent;
              Rpcs(Step(s, Open(id), h).trace) == Rpcs(s.trace) + [AgentList(id)]
                + if picked.Some? then [AgentGet(picked.value), AgentContext(picked.value)] else []
  {
    hide ReloadCanvas;
    hide CanvasIsRead;
    hide CanvasFrame;
    hide Quiet;
    hide Mon;
    hide Rpcs;
    hide Step;
    OpenIs(s, id, h);
    var shown := s.(tabs := Opened(s.tabs, id));
    ReloadReads(shown, id, h);
    if s.conn.session.Some? && h.agents(id).Some? { ReloadAsks(shown, id, h); }
  }

  /** The event bridge came back: a shown task's canvas is read again while the host is online. */
  lemma ReconnectRereads(s: App, h: Host)
    ensures var r := Step(s, WsReconnected, h);
            if s.conn.status == Online && s.tabs.selectedTask.Some? then
              && r.conn == s.conn && r.dirs == Dirs(map[], {})
              && r.tabs == s.tabs.(agents := r.tabs.agents, selectedAgent := r.tabs.selectedAgent)
              && CanvasIsRead(s.tabs.agents, s.tabs.selectedAgent, s.conn.session.Some?,
                              s.tabs.selectedTask.value, h, r.tabs)
            else r == s
  {
    hide Step;
    hide ReloadCanvas;
    hide CanvasIsRead;
    hide Quiet;
    ConnectionStepIs(s, WsReconnected, h);
    if s.tabs.selectedTask.Some? { ReloadReads(s, s.tabs.selectedTask.value, h); }
  }

  /** Switching to the tab that is shown does nothing; to another one it is opening it. */
  lemma SwitchOpens(s: App, id: Id, h: Host)
    ensures Step(s, Switch(id), h) == if s.tabs.selectedTask == Some(id) then s else Step(s, Open(id), h)
  {
    hide Step;
    hide OpenTask;
    hide Framed;
    OpenIs(s, id, h);
    TabsStepIs(s, Switch(id), h);
  }

  /** Selecting another agent shows it, remembers it for the task and reads it. */
  lemma SelectShows(s: App, id: Id, h: Host)
    ensures var r := Step(s, Select(id), h).tabs;
            if s.tabs.selectedAgent == Some(id) then Step(s, Select(id), h) == s
            else
              && r.selectedAgent == Some(id) && r.selectedTask == s.tabs.selectedTask
              && (s.tabs.selectedTask.Some? ==> r.remembered == s.tabs.remembered[s.tabs.selectedTask.value := id])
              && ShownWasRead(r.(agents := s.tabs.agents), s.conn.session.Some?, h, r.agents)
              && Rpcs(Step(s, Select(id), h).trace)
                 == Rpcs(s.trace) + ShownReads(r.(agents := s.tabs.agents), s.conn.session.Some?)
  {
    hide Step;
    hide LoadSelectedAgent;
    hide ShownWasRead;
    hide ShownReads;
    hide Framed;
    hide Stays;
    hide Quiet;
    hide Mon;
    hide Rpcs;
    TabsStepIs(s, Select(id), h);
    var picked := s.(tabs := Remember(s.tabs.(selectedAgent := Some(id))));
    LoadReadsShown(picked, h);
    assert LoadSelectedAgent(picked, h).tabs.(agents := s.tabs.agents) == picked.tabs;
  }

  lemma UnreadStays(s: App, task: Id, h: Host)
    requires s.conn.session.None? || h.agents(task).None?
    ensures ReloadAgents(s, task, h).tabs == s.tabs
  {
    hide Quiet;
    hide Mon;
    hide Rpcs;
  }

  // ------------------------------------------------------------ the connection

  predicate KeepaliveIsDue(s: App) {
    !s.conn.pendingDiscover && IsOnline(s) && (s.conn.lastRpc.None? || s.conn.lastRpc.value + 5000 <= s.now)
  }

  predicate GoneOffline(c: Connection) {
    c.status == Offline && c.session.None? && c.token.None? && c.ws.None?
  }

  /** The bridge goes to the address the session names, if it names one. */
  predicate BridgeIs(url: Option<string>, ws: Option<string>) {
    ws == if url.Some? && Trim(url.value) != "" then url else None
  }

  /** A retry has the next discovery look for the host again, whatever the state. */
  lemma RetryConnects(s: App, h0: Host, h: Host)
    ensures var r := Step(Step(s, Retry, h0), Discover, h).conn;
            if h.pidFile && h.connect.Some? then r.status == Online && r.session == h.connect else GoneOffline(r)
  {
    hide Step;
    hide TickDiscovery;
    hide BridgeIs;
    ConnectionStepIs(s, Retry, h0);
    DiscoverConnects(Step(s, Retry, h0), h);
  }

  /** A discovery ends online with the session offered exactly when there is a pid file and a session;
      a keepalive that is due and not answered ends offline; an answered one is noted; nothing else
      changes. */
  lemma DiscoverConnects(s: App, h: Host)
    ensures var c, r := s.conn, Step(s, Discover, h).conn;
            if c.pendingDiscover then
              && !r.pendingDiscover
              && if h.pidFile && h.connect.Some? then
                   r.status == Online && r.session == h.connect && r.token == Some(h.connect.value.token)
                   && r.lastRpc == Some(s.now) && BridgeIs(h.connect.value.wsUrl, r.ws)
                 else GoneOffline(r)
            else if KeepaliveIsDue(s) then
              if h.alive then r == c.(lastRpc := Some(s.now)) else GoneOffline(r)
            else Step(s, Discover, h) == s
  {
    hide Step;
    hide RefreshCatalog;
    hide ReloadCanvas;
    hide Quiet;
    hide Trim;
    hide Mon;
    hide Rpcs;
    ConnectionStepIs(s, Discover, h);
  }

  /** The presets after they were read: the host's own if it keeps any, else the four built in. */
  ghost predicate PresetsAre(presets: seq<Id>, session: Session, h: Host) {
    presets == if session.workspace && h.presets.Some? && h.presets.value != [] then h.presets.value
               else ["planning", "review", "debug", "document"]
  }

  /** The catalog after it was read: the host's workspaces, the first of them chosen, and if there is one
      the presets; as before without an answer. */
  ghost predicate CatalogIsRead(c: Catalog, session: Session, h: Host, r: Catalog) {
    if h.workspaces.None? then r == c
    else
      && r.workspaces == h.workspaces.value && r.peerUrl == c.peerUrl && r.newTaskPreset == c.newTaskPreset
      && if r.workspaces == [] then r.workspaceId == None && r.presets == c.presets
         else r.workspaceId == Some(r.workspaces[0]) && PresetsAre(r.presets, session, h)
  }

  lemma CatalogRead(s: App, h: Host)
    requires s.conn.session.Some?
    ensures CatalogIsRead(s.catalog, s.conn.session.value, h, RefreshCatalog(s, h).catalog)
  {
    hide Quiet;
    hide Mon;
    hide Rpcs;
  }

  lemma DiscoverReadsCatalog(s: App, h: Host)
    requires s.conn.pendingDiscover
    ensures var r := Step(s, Discover, h).catalog;
            if h.pidFile && h.connect.Some? then CatalogIsRead(s.catalog, h.connect.value, h, r)
            else r == s.catalog.(workspaces := [], workspaceId := None)
  {
    hide Step;
    hide RefreshCatalog;
    hide ReloadCanvas;
    hide CatalogIsRead;
    hide Quiet;
    hide Mon;
    hide Rpcs;
    ConnectionStepIs(s, Discover, h);
    if h.pidFile && h.connect.Some? {
      var asking := Emit(s.(conn := s.conn.(pendingDiscover := false, status := Connecting, token := None)), Connect);
      var session := h.connect.value;
      CatalogRead(asking.(conn := asking.conn.(status := Online, session := Some(session), token := Some(session.token),
                                               ws := WsUrl(session), lastRpc := Some(s.now))), h);
    }
  }

  // ------------------------------------------------------------ cancelling

  /** Stopping asks for the shown agent if it runs and no cancel is pending, and does nothing else. */
  lemma StopStarts(s: App, h: Host)
    ensures var shown, r := SelectedAgent(s.tabs), Step(s, Stop, h);
            if s.cancel.pending.None? && shown.Some? && shown.value.status == Running && s.conn.session.Some?
            then r.cancel == Cancel(Some(shown.value.id), s.cancel.workers + [shown.value.id], s.cancel.results)
                 && r.trace == s.trace + [CancelStarted(shown.value.id)]
            else r == s
  {
    hide Step;
    hide SelectedAgent;
    hide Framed;
    hide Stays;
    hide Mon;
    hide Rpcs;
    TalkStepIs(s, Stop, h);
  }

  /** The worker's answer, whatever it is, is queued for the agent it was started for. */
  lemma WorkerAnswers(s: App, h: Host)
    ensures var c, r := s.cancel, Step(s, WorkerReply, h).cancel;
            r == if c.workers == [] then c
                 else Cancel(c.pending, c.workers[1..], c.results + [CancelDone(c.workers[0], h.cancel)])
  {
    hide Step;
    hide Mon;
    hide Rpcs;
    TalkStepIs(s, WorkerReply, h);
  }

  /** Stop, the host's answer, the next tick: the agent that was shown, or the one the host names, is
      idle, and another cancel may start. */
  lemma StoppedIsIdle(s: App, h0: Host, answer: Host, h: Host)
    requires Inv(s) && s.cancel.pending.None? && s.conn.session.Some?
    requires SelectedAgent(s.tabs).Some? && SelectedAgent(s.tabs).value.status == Running && answer.cancel.Ok?
    ensures var r := Step(Step(Step(s, Stop, h0), WorkerReply, answer), Tick, h);
            && r.cancel == Cancel(None, [], [])
            && FirstIsIdle(s.tabs.agents, answer.cancel.value.agentId, SelectedAgent(s.tabs).value.id, r.tabs.agents)
  {
    hide Step;
    hide Inv;
    hide SelectedAgent;
    hide FirstIsIdle;
    var id := SelectedAgent(s.tabs).value.id;
    NoCancelYet(s);
    StopStarts(s, h0);
    StepKeeps(s, Stop, h0);
    var asked := Step(s, Stop, h0);
    StepKeeps(asked, WorkerReply, answer);
    WorkerAnswers(asked, answer);
    CancellingKeepsTabs(s, h0);
    AnsweringKeepsTabs(asked, answer);
    TickTakesAnswer(Step(asked, WorkerReply, answer), CancelDone(id, answer.cancel), h);
  }

  lemma NoCancelYet(s: App)
    requires Inv(s) && s.cancel.pending.None?
    ensures s.cancel.workers == [] && s.cancel.results == []
  {
    hide Inv;
    PendingHasWork(s);
  }

  lemma CancellingKeepsTabs(s: App, h: Host)
    ensures Step(s, Stop, h).tabs == s.tabs
  {
    hide Step;
    hide SelectedAgent;
    hide Framed;
    hide Stays;
    hide Mon;
    hide Rpcs;
    TalkStepIs(s, Stop, h);
  }

  lemma AnsweringKeepsTabs(s: App, h: Host)
    ensures Step(s, WorkerReply, h).tabs == s.tabs
  {
    hide Step;
    WorkerOnlyAnswers(s, WorkerReply, h);
  }

  /** The first agent called a or b is idle, and nothing else changed. */
  ghost predicate FirstIsIdle(before: seq<AgentStub>, a: Id, b: Id, after: seq<AgentStub>) {
    && |after| == |before|
    && forall k :: 0 <= k < |before| ==>
         after[k] == if before[k].id in {a, b} && forall j :: 0 <= j < k ==> before[j].id !in {a, b}
                     then before[k].(status := Idle) else before[k]
  }

  lemma SetFirstIdle(agents: seq<AgentStub>, a: Id, b: Id)
    ensures FirstIsIdle(agents, a, b, SetStatus(agents, FindEither(agents, a, b), Idle))
  {
    var k := FindEither(agents, a, b);
    assert forall j :: 0 <= j < k ==> agents[j].id !in {a, b};
    if k < |agents| { assert agents[k].id in {a, b}; }
  }

  /** The tick after a cancel was answered: no cancel is pending any more; if the host took it, the agent
      it names, or else the one asked for, is idle; if it failed, no agent changes. */
  lemma TickTakesAnswer(s: App, done: CancelDone, h: Host)
    requires Inv(s) && s.cancel.results == [done]
    ensures var r := Step(s, Tick, h);
            && r.cancel == Cancel(None, [], [])
            && if done.result.Ok? then
                 FirstIsIdle(s.tabs.agents, done.result.value.agentId, done.agentId, r.tabs.agents)
               else r.tabs.agents == s.tabs.agents
  {
    hide Step;
    hide Inv;
    hide ApplyCancels;
    hide TickSearchDebounce;
    hide FirstIsIdle;
    hide Framed;
    hide Stays;
    hide Mon;
    hide Rpcs;
    TalkStepIs(s, Tick, h);
    TickKeeps(s, h);
    PendingHasWork(s);
    var drained := s.(cancel := s.cancel.(results := []));
    OneCancel(drained, done);
    var applied := ApplyCancels(drained, [done]);
    DebounceKeepsTabs(applied, h);
    if done.result.Ok? { SetFirstIdle(s.tabs.agents, done.result.value.agentId, done.agentId); }
  }

  lemma DebounceKeepsTabs(s: App, h: Host)
    ensures TickSearchDebounce(s, h).tabs == s.tabs
  {
    hide Trim;
    hide Framed;
    hide Stays;
    hide Mon;
    hide Rpcs;
  }

  lemma OneCancel(s: App, done: CancelDone)
    ensures ApplyCancels(s, [done]).tabs.agents
            == if done.result.Ok? then
                 SetStatus(s.tabs.agents, FindEither(s.tabs.agents, done.result.value.agentId, done.agentId), Idle)
               else s.tabs.agents
  {
    hide SetStatus;
    hide FindEither;
    hide Framed;
    hide Stays;
    hide Mon;
    hide Rpcs;
    assert [done][..0] == [] && ApplyCancels(s, []) == s;
  }

  // ------------------------------------------------------------ gates

  /** The host can do what the gate guards. */
  predicate HostOffers(s: App, g: Gate) {
    s.conn.session.Some? && var session := s.conn.session.value;
    match g
    case SyncImport => session.sync
    case SyncPull => session.syncPeer
    case WorktreeGc => !session.gcRejected
    case PresetDelete => session.presetCrud
  }

  /** What the command behind the gate needs besides is there. */
  predicate HasInputs(s: App, g: Gate) {
    match g
    case SyncImport => WorkspaceNamed(s)
    case SyncPull => WorkspaceNamed(s) && Trim(s.catalog.peerUrl) != ""
    case WorktreeGc => true
    case PresetDelete => exists p :: p in s.catalog.presets && PickedPreset(s, p)
  }

  /** A request opens its gate if the host offers it and the inputs are there. Without the host's offer
      it closes it; else it leaves it. Garbage collection is not asked for while the host is not online,
      and is asked for without a session. No other gate changes. */
  lemma RequestOpensIff(s: App, g: Gate, h: Host)
    ensures var before, after := s.gates, Step(s, Request(g), h).gates;
            && (forall x :: x != g ==> Has(after, x) == Has(before, x))
            && Has(after, g) ==
                 if g == WorktreeGc && s.conn.status != Online then Has(before, g)
                 else if g == WorktreeGc && s.conn.session.None? then true
                 else if !HostOffers(s, g) then false
                 else HasInputs(s, g) || Has(before, g)
  {
    hide Step;
    hide Trim;
    hide PickedPreset;
    hide Mon;
    hide Rpcs;
    GatesStepIs(s, Request(g), h);
    InputsIff(s, g);
  }

  lemma InputsIff(s: App, g: Gate)
    ensures HasInputs(s, g) <==> Prepared(s, g)
  {
    hide Trim;
    if g == PresetDelete && Deletable(SelectedUserPreset(s.catalog)) {
      assert PickedPreset(s, s.catalog.newTaskPreset.value);
    }
  }

  /** A confirmed gate is closed, whatever comes of the command, and so is a withdrawn one. */
  lemma ConfirmedIsClosed(s: App, g: Gate, picked: bool, h: Host)
    ensures !Has(Step(s, Confirm(g, picked), h).gates, g) && !Has(Step(s, Withdraw(g), h).gates, g)
    ensures forall x :: x != g ==> Has(Step(s, Confirm(g, picked), h).gates, x) == Has(s.gates, x)
    ensures forall x :: x != g ==> Has(Step(s, Withdraw(g), h).gates, x) == Has(s.gates, x)
  {
    hide Step;
    hide ConfirmGate;
    hide WithdrawGate;
    GatesStepIs(s, Confirm(g, picked), h);
    GatesStepIs(s, Withdraw(g), h);
    ConfirmStep(s, g, picked, h);
    RequestStep(s, g);
  }

  // ------------------------------------------------------------ approvals and status

  /** A request for approval is kept under its agent if its task has a tab and it has an id. */
  lemma ApprovalIsKept(s: App, approvalId: string, agentId: Id, taskId: Id, h: Host)
    requires TabsOk(s.tabs)
    ensures Step(s, WsApproval(approvalId, agentId, taskId), h)
            == if taskId in s.tabs.open && approvalId != ""
               then s.(tabs := s.tabs.(approvals := s.tabs.approvals[agentId := Approval(approvalId, agentId, taskId)]))
               else s
  {
    hide Step;
    AgentsStepIs(s, WsApproval(approvalId, agentId, taskId), h);
  }

  /** An answer the host took clears the approval of the shown agent and no other; otherwise all stay. */
  lemma RespondClears(s: App, decision: string, h: Host)
    requires TabsOk(s.tabs)
    ensures var r, shown := Step(s, Respond(decision), h).tabs, SelectedAgent(s.tabs);
            && r == s.tabs.(approvals := r.approvals)
            && r.approvals == if shown.Some? && s.conn.session.Some? && h.ok
                              then s.tabs.approvals - {shown.value.id} else s.tabs.approvals
  {
    hide Step;
    hide SelectedAgent;
    hide Framed;
    hide Stays;
    hide Mon;
    hide Rpcs;
    TalkStepIs(s, Respond(decision), h);
    var shown := SelectedAgent(s.tabs);
    if shown.Some? && shown.value.id !in s.tabs.approvals {
      assert s.tabs.approvals - {shown.value.id} == s.tabs.approvals;
    }
  }

  /** The first agent called id has the status, and nothing else changed. */
  ghost predicate FirstHas(before: seq<AgentStub>, id: Id, status: AgentStatus, after: seq<AgentStub>) {
    && |after| == |before|
    && forall k :: 0 <= k < |before| ==>
         after[k] == if before[k].id == id && forall j :: 0 <= j < k ==> before[j].id != id
                     then before[k].(status := status) else before[k]
  }

  /** A status event is heard unless another task or another agent is selected, and changes the status of
      the first agent with that id and nothing else. */
  lemma StatusIsShown(s: App, taskId: Id, agentId: Id, status: AgentStatus, h: Host)
    ensures var r := Step(s, WsStatus(taskId, agentId, status), h);
            && r == s.(tabs := s.tabs.(agents := r.tabs.agents))
            && if s.tabs.selectedTask in {None, Some(taskId)} && s.tabs.selectedAgent in {None, Some(agentId)}
               then FirstHas(s.tabs.agents, agentId, status, r.tabs.agents)
               else r == s
  {
    hide Step;
    hide SetStatus;
    hide FirstHas;
    AgentsStepIs(s, WsStatus(taskId, agentId, status), h);
    SetFirst(s.tabs.agents, agentId, status);
  }

  lemma SetFirst(agents: seq<AgentStub>, id: Id, status: AgentStatus)
    ensures FirstHas(agents, id, status, SetStatus(agents, Find(agents, id), status))
  {
    var k := Find(agents, id);
    assert forall j :: 0 <= j < k ==> agents[j].id != id;
  }

  // ------------------------------------------------------------ creating and deleting agents

  /** A created agent stands last in the list, is selected, and is remembered for the task. */
  lemma CreatedIsSelected(s: App, e: Event, h: Host)
    requires e.NewAgent? || e.NewChild?
    requires h.created.Some? && exists rpc :: SendsToStart(s, e, h, rpc)
    ensures var r := Step(s, e, h).tabs;
            && r.selectedAgent == Some(h.created.value.id)
            && s.tabs.selectedTask.Some? && r.selectedTask == s.tabs.selectedTask
            && r.remembered == s.tabs.remembered[s.tabs.selectedTask.value := h.created.value.id]
            && ShownWasRead(r.(agents := s.tabs.agents + [h.created.value]), true, h, r.agents)
  {
    hide Step;
    hide Added;
    hide SelectedAgent;
    hide ShownWasRead;
    hide Framed;
    hide Stays;
    hide Mon;
    hide Rpcs;
    TabsStepIs(s, e, h);
    var rpc :| SendsToStart(s, e, h, rpc);
    AddedIsSelected(Emit(s, rpc), h.created.value, h);
  }

  lemma AddedIsSelected(s: App, stub: AgentStub, h: Host)
    requires s.tabs.selectedTask.Some? && s.conn.session.Some?
    ensures var r := Added(s, stub, h).tabs;
            && r.selectedAgent == Some(stub.id) && r.selectedTask == s.tabs.selectedTask
            && r.remembered == s.tabs.remembered[s.tabs.selectedTask.value := stub.id]
            && ShownWasRead(r.(agents := s.tabs.agents + [stub]), true, h, r.agents)
  {
    hide LoadSelectedAgent;
    hide ShownWasRead;
    hide Quiet;
    hide Mon;
    hide Rpcs;
    var t := Remember(s.tabs.(selectedAgent := Some(stub.id)));
    var added := s.(tabs := t.(agents := t.agents + [stub]));
    LoadReadsShown(added, h);
    assert Added(s, stub, h).tabs.(agents := s.tabs.agents + [stub]) == added.tabs;
  }

  /** x is the first agent of the shown task not called id, or nothing if there is none. */
  ghost predicate FirstOther(t: Tabs, id: Id, x: Option<Id>) {
    if x.None? then forall a :: a in t.agents && OfShownTask(t, a) ==> a.id == id
    else exists k :: 0 <= k < |t.agents| && OfShownTask(t, t.agents[k]) && t.agents[k].id == x.value != id
                     && forall j :: 0 <= j < k ==> !(OfShownTask(t, t.agents[j]) && t.agents[j].id != id)
  }

  /** After the selected agent is deleted the first other one of the task is selected; another selection
      stays. The deleted one is gone from the list, and pointers to it are cleared. */
  lemma DeleteSelectsNext(s: App, id: Id, h: Host)
    ensures var r := Step(s, Delete(id), h).tabs;
            && (if s.tabs.selectedAgent == Some(id) then FirstOther(s.tabs, id, r.selectedAgent)
                else r.selectedAgent == s.tabs.selectedAgent)
            && if s.tabs.selectedAgent == Some(id) && r.selectedAgent.Some? then
                 ShownWasRead(r.(agents := Without(s.tabs.agents, id)), s.conn.session.Some?, h, r.agents)
               else r.agents == Without(s.tabs.agents, id)
  {
    hide Step;
    hide LoadSelectedAgent;
    hide FirstOther;
    hide Without;
    hide WithoutMentions;
    hide AgentsForSelectedTask;
    hide ShownWasRead;
    hide Framed;
    hide Stays;
    hide Quiet;
    hide FirstId;
    TabsStepIs(s, Delete(id), h);
    var t := s.tabs.(agents := Without(s.tabs.agents, id));
    NextIs(s.tabs, id);
    var next := t.(selectedAgent := FirstId(AgentsForSelectedTask(t)));
    var left := s.(tabs := Remember(next), inbox := WithoutMentions(s.inbox, id));
    LoadReadsShown(left, h);
    assert LoadSelectedAgent(left, h).tabs.(agents := left.tabs.agents) == left.tabs;
  }

  lemma NextIs(t: Tabs, id: Id)
    ensures FirstOther(t, id, FirstId(AgentsForSelectedTask(t.(agents := Without(t.agents, id)))))
  {
    hide Without;
    hide Picks;
    var left := Without(t.agents, id);
    var keep := (a: AgentStub) => a.id != id;
    var at := WithoutInOrder(t.agents, id);
    if t.selectedTask.Some? {
      var task := t.selectedTask.value;
      FirstOfTaskIs(left, task);
      OtherOf(t, id, at, FirstId(OfTask(left, task)));
    }
  }

  lemma NoOther(t: Tabs, id: Id, at: seq<nat>)
    requires t.selectedTask.Some? && FirstOfTask(Without(t.agents, id), t.selectedTask.value, None)
    requires Picks(t.agents, (a: AgentStub) => a.id != id, at) && |at| == |Without(t.agents, id)|
    requires forall i :: 0 <= i < |at| ==> Without(t.agents, id)[i].taskId == t.agents[at[i]].taskId
    ensures FirstOther(t, id, None)
  {
    hide Without;
    var left := Without(t.agents, id);
    forall i | 0 <= i < |at| ensures !OfShownTask(t, t.agents[at[i]]) { assert left[i] in left; }
    forall a | a in t.agents && OfShownTask(t, a) ensures a.id == id {
      var k :| 0 <= k < |t.agents| && t.agents[k] == a;
      assert k in at <==> a.id != id;
    }
  }

  /** If the kept agents before the k-th are of other tasks, so are all others but id before it. */
  lemma NoneBefore(t: Tabs, id: Id, at: seq<nat>, k: nat, j: nat)
    requires Picks(t.agents, (a: AgentStub) => a.id != id, at) && k < |at| && j < at[k]
    requires forall i :: 0 <= i < k ==> !OfShownTask(t, t.agents[at[i]])
    ensures j < |t.agents| && !(OfShownTask(t, t.agents[j]) && t.agents[j].id != id)
  {
    hide OfShownTask;
    assert at[k] < |t.agents|;
    if t.agents[j].id != id {
      assert j in at;
      var i :| 0 <= i < |at| && at[i] == j;
      assert i < k;
    }
  }

  lemma OtherOf(t: Tabs, id: Id, at: seq<nat>, x: Option<Id>)
    requires t.selectedTask.Some? && FirstOfTask(Without(t.agents, id), t.selectedTask.value, x)
    requires Picks(t.agents, (a: AgentStub) => a.id != id, at) && |at| == |Without(t.agents, id)|
    requires forall i :: 0 <= i < |at| ==>
               && Without(t.agents, id)[i].id == t.agents[at[i]].id
               && Without(t.agents, id)[i].taskId == t.agents[at[i]].taskId
    ensures FirstOther(t, id, x)
  {
    hide Without;
    var left, task := Without(t.agents, id), t.selectedTask.value;
    if x.None? {
      NoOther(t, id, at);
    } else {
      var k :| 0 <= k < |left| && left[k].taskId == task && left[k].id == x.value
               && forall j :: 0 <= j < k ==> left[j].taskId != task;
      assert at[k] in at;
      forall j: nat | j < at[k] ensures !(OfShownTask(t, t.agents[j]) && t.agents[j].id != id) {
        NoneBefore(t, id, at, k, j);
      }
    }
  }

  /** Of the inbox a deletion keeps, in front and in order, what does not mention the agent. */
  lemma DeleteKeepsOthers(s: App, id: Id, h: Host) returns (at: seq<nat>)
    ensures Picks(s.inbox, (m: InboxItem) => m.toAgentId != id && m.fromAgentId != id, at)
    ensures var r := Step(s, Delete(id), h).inbox;
            |at| <= |r| && forall i :: 0 <= i < |at| ==> at[i] < |s.inbox| && r[i] == s.inbox[at[i]]
  {
    hide Step;
    hide Picks;
    hide Exchange.Arriving;
    var keep := (m: InboxItem) => m.toAgentId != id && m.fromAgentId != id;
    at := WherePicks(s.inbox, keep);
    PicksInRange(s.inbox, keep, at);
    Exchange.StepMergesArrivals(s, Delete(id), h);
    MergeAllFacts(WithoutMentions(s.inbox, id), Exchange.Arriving(s, Delete(id), h));
  }

  // ------------------------------------------------------------ drafts, directories, results

  /** What was typed is cleared when it was sent and the host took it, and stays otherwise. */
  lemma ComposerClears(s: App, e: Event, h: Host)
    requires Exchange.Talks(e)
    ensures Step(s, e, h).composer == if h.ok && (exists m :: Exchange.Says(s, e, m)) then "" else s.composer
  {
    hide Step;
    hide Trim;
    hide SelectedAgent;
    hide Framed;
    hide Stays;
    hide Mon;
    hide Rpcs;
    TalkStepIs(s, e, h);
    Exchange.SaidIsSays(s, e);
    if Exchange.Said(s, e) != [] { assert Exchange.Said(s, e)[0] in Exchange.Said(s, e); }
  }

  /** A directory that is opened for the first time shows what the host lists. */
  lemma ToggleLists(s: App, path: string, h: Host)
    ensures var d, r := s.dirs, Step(s, Toggle(path), h).dirs;
            if path in d.expanded then r == d.(expanded := d.expanded - {path})
            else if path in d.children then r == d.(expanded := d.expanded + {path})
            else if s.catalog.workspaceId.Some? && s.conn.session.Some? && h.tree.Some? then
              r == Dirs(d.children[path := h.tree.value], d.expanded + {path})
            else r == d
  {
    hide Step;
    hide Framed;
    hide Stays;
    hide Mon;
    hide Rpcs;
    AgentsStepIs(s, Toggle(path), h);
  }

  /** Picking a result opens its task, or the task of the artifact if another one is shown, or chooses the
      workspace; then the popup is closed. A place without a result does nothing. */
  lemma PickOpens(s: App, index: nat, artifactTask: Option<Id>, h: Host)
    ensures var r := Step(s, SearchPick(index, artifactTask), h);
            if index >= |s.search.items| then r == s
            else
              var item := s.search.items[index];
              && r.search == Search(s.search.text, [], false, None, None)
              && (item.kind == TaskHit ==> r.tabs == Step(s, Open(item.id), h).tabs)
              && (item.kind == ArtifactHit ==>
                    r.tabs == if artifactTask.Some? && artifactTask != s.tabs.selectedTask
                              then Step(s, Open(artifactTask.value), h).tabs else s.tabs)
              && (item.kind in {WorkspaceHit, OtherHit} ==> r.tabs == s.tabs)
              && r.catalog.workspaceId == if item.kind == WorkspaceHit then Some(item.id) else s.catalog.workspaceId
  {
    hide Step;
    hide OpenTask;
    hide DismissSearch;
    hide Framed;
    hide Quiet;
    hide CanvasFrame;
    PickIs(s, index, artifactTask, h);
    DismissCloses(s);
    if index < |s.search.items| {
      var id := s.search.items[index].id;
      OpenIs(s, id, h);
      OpenKeepsSearch(s, id, h);
      DismissCloses(OpenTask(s, id, h));
      DismissCloses(s.(catalog := s.catalog.(workspaceId := Some(id))));
    }
    if artifactTask.Some? {
      OpenIs(s, artifactTask.value, h);
      OpenKeepsSearch(s, artifactTask.value, h);
      DismissCloses(OpenTask(s, artifactTask.value, h));
    }
  }

  lemma OpenKeepsSearch(s: App, id: Id, h: Host)
    ensures OpenTask(s, id, h).search == s.search && OpenTask(s, id, h).catalog == s.catalog
  {
    hide OpenTask;
  }

  lemma DismissCloses(s: App)
    ensures var r := DismissSearch(s);
            r == s.(search := Search(s.search.text, [], false, None, None), trace := r.trace)
  {
    hide Framed;
    hide Stays;
    hide Mon;
    hide Rpcs;
  }

  lemma OpenIs(s: App, id: Id, h: Host)
    ensures Step(s, Open(id), h) == OpenTask(s, id, h)
  {
    hide Step;
    hide OpenTask;
    TabsStepIs(s, Open(id), h);
  }

  /** Return picks the first result while the popup shows one; else it submits and picks the first result
      that brings. */
  lemma ReturnPicks(s: App, artifactTask: Option<Id>, h: Host)
    ensures var found := if s.search.ran && s.search.items != [] then s else Step(s, SearchSubmit, h);
            Step(s, SearchReturn(artifactTask), h)
            == if found.search.items == [] then found else Step(found, SearchPick(0, artifactTask), h)
  {
    hide Step;
    hide SubmitSearch;
    hide ActivateSearchResult;
    hide Framed;
    ReturnIs(s, artifactTask, h);
    SubmitIs(s, h);
    PickIs(s, 0, artifactTask, h);
    PickIs(SubmitSearch(s, h), 0, artifactTask, h);
  }

  lemma ReturnIs(s: App, artifactTask: Option<Id>, h: Host)
    ensures Step(s, SearchReturn(artifactTask), h) == SearchEnter(s, artifactTask, h)
  {
    hide Step;
    hide SearchEnter;
    SearchStepIs(s, SearchReturn(artifactTask), h);
  }

  lemma SubmitIs(s: App, h: Host)
    ensures Step(s, SearchSubmit, h) == SubmitSearch(s, h)
  {
    hide Step;
    hide SubmitSearch;
    SearchStepIs(s, SearchSubmit, h);
  }

  lemma PickIs(s: App, index: nat, artifactTask: Option<Id>, h: Host)
    ensures Step(s, SearchPick(index, artifactTask), h) == ActivateSearchResult(s, index, artifactTask, h)
  {
    hide Step;
    hide ActivateSearchResult;
    SearchStepIs(s, SearchPick(index, artifactTask), h);
  }

  /** A new role the host took is shown for the selected agent and nothing else changes. */
  lemma RoleIsTaken(s: App, changed: bool, h: Host)
    ensures var r := Step(s, PickRole(changed), h);
            && r == s.(tabs := s.tabs.(agents := r.tabs.agents), trace := r.trace)
            && if changed && s.tabs.selectedAgent.Some? && s.conn.session.Some? && s.conn.session.value.workspace
                  && h.roleUpdated(s.tabs.selectedAgent.value).Some?
               then FirstIs(s.tabs.agents, s.tabs.selectedAgent.value,
                            h.roleUpdated(s.tabs.selectedAgent.value).value, r.tabs.agents)
               else r.tabs.agents == s.tabs.agents
  {
    hide Step;
    hide Framed;
    hide Stays;
    hide Mon;
    hide Rpcs;
    hide Answered;
    hide FirstIs;
    AgentsStepIs(s, PickRole(changed), h);
    if s.tabs.selectedAgent.Some? {
      var id := s.tabs.selectedAgent.value;
      AnsweredIs(s.tabs.agents, id, h.roleUpdated(id));
    }
  }

  // ------------------------------------------------------------ what follows an answer

  /** A task the host created is opened, once the catalog was read again. */
  lemma CreatedTaskIsShown(s: App, title: string, h: Host)
    requires h.task.Some? && exists rpc :: SendsToStart(s, NewTask(title), h, rpc)
    ensures var r := Step(s, NewTask(title), h);
            && r.tabs.selectedTask == h.task && r.tabs.screen == Canvas && h.task.value in r.tabs.open
            && s.conn.session.Some?
            && CatalogIsRead(s.catalog.(newTaskPreset := None), s.conn.session.value, h, r.catalog)
  {
    hide Step;
    hide Trim;
    hide RefreshCatalog;
    hide OpenTask;
    hide CatalogIsRead;
    hide Framed;
    hide Quiet;
    hide Mon;
    hide Rpcs;
    TabsStepIs(s, NewTask(title), h);
    var asked := Emit(s, TaskCreate(Trim(title)));
    CatalogRead(asked.(catalog := asked.catalog.(newTaskPreset := None)), h);
  }

  /** A workspace, a title or an archiving the host took has the catalog read again. */
  lemma EditRereads(s: App, e: Event, h: Host, rpc: Rpc)
    requires (e.NewWorkspace? || e.Rename? || e.Archive?) && SendsFromForm(s, e, rpc)
    ensures s.conn.session.Some?
    ensures var r := Step(s, e, h);
            if h.ok then CatalogIsRead(s.catalog, s.conn.session.value, h, r.catalog) else r.catalog == s.catalog
  {
    hide Step;
    hide Trim;
    hide EditCatalog;
    hide CatalogIsRead;
    hide FormFrame;
    FormsStepIs(s, e, h);
    EditReads(s, rpc, h);
  }

  lemma EditReads(s: App, rpc: Rpc, h: Host)
    requires s.conn.session.Some? && (rpc.WorkspaceAdd? || rpc.TaskRename? || rpc.TaskArchive?)
    ensures if h.ok then CatalogIsRead(s.catalog, s.conn.session.value, h, EditCatalog(s, rpc, h).catalog)
            else EditCatalog(s, rpc, h).catalog == s.catalog
  {
    hide RefreshCatalog;
    hide CatalogIsRead;
    hide FormFrame;
    hide Quiet;
    hide Mon;
    hide Rpcs;
    CatalogRead(Emit(s, rpc), h);
  }

  /** After a confirmed command the host took: an import and a pull have the catalog read again, an import
      also the list of the shown task; a deleted preset is no longer picked and the presets are read. */
  lemma ConfirmedRereads(s: App, g: Gate, picked: bool, h: Host)
    requires MayConfirm(s, g, picked)
    ensures var r := Step(s, Confirm(g, picked), h);
            if !h.ok then r.catalog == s.catalog && r.tabs == s.tabs
            else match g
                 case SyncImport =>
                   CatalogIsRead(s.catalog, s.conn.session.value, h, r.catalog) && ImportIsShown(s.tabs, h, r.tabs)
                 case SyncPull => CatalogIsRead(s.catalog, s.conn.session.value, h, r.catalog) && r.tabs == s.tabs
                 case WorktreeGc => r.catalog == s.catalog && r.tabs == s.tabs
                 case PresetDelete =>
                   && r.catalog == s.catalog.(newTaskPreset := None, presets := r.catalog.presets)
                   && PresetsAre(r.catalog.presets, s.conn.session.value, h) && r.tabs == s.tabs
  {
    hide Step;
    hide ConfirmGate;
    hide MayConfirm;
    hide CatalogIsRead;
    hide ImportIsShown;
    hide AfterGuarded;
    GatesStepIs(s, Confirm(g, picked), h);
    ConfirmedIs(s, g, picked, h);
    var sent := Emit(Note(CloseGate(s, g), Confirmed(g)), Guarded(g));
    MayConfirmHasSession(s, g, picked);
    if h.ok { AfterGuardedIs(sent, g, h); }
  }

  lemma MayConfirmHasSession(s: App, g: Gate, picked: bool)
    requires MayConfirm(s, g, picked)
    ensures s.conn.session.Some?
  {
    hide Trim;
  }

  lemma ConfirmedIs(s: App, g: Gate, picked: bool, h: Host)
    requires MayConfirm(s, g, picked)
    ensures var sent := Emit(Note(CloseGate(s, g), Confirmed(g)), Guarded(g));
            ConfirmGate(s, g, picked, h) == if h.ok then AfterGuarded(sent, g, h) else sent
  {
    hide MayConfirm;
    hide Offered;
    hide Prepared;
    hide AfterGuarded;
    hide Put;
    hide Mon;
    hide Rpcs;
    ConfirmIff(s, g, picked);
    SameOffer(s, Note(CloseGate(s, g), Confirmed(g)), g);
  }

  ghost predicate ImportIsShown(t: Tabs, h: Host, r: Tabs) {
    if t.selectedTask.None? || (t.selectedAgent.None? && h.agents(t.selectedTask.value).None?) then r == t
    else r == t.(agents := r.agents, selectedAgent := r.selectedAgent)
         && CanvasIsRead(t.agents, t.selectedAgent, true, t.selectedTask.value, h, r)
  }

  lemma AfterGuardedIs(s: App, g: Gate, h: Host)
    requires s.conn.session.Some?
    ensures var r := AfterGuarded(s, g, h);
            match g
            case SyncImport =>
              CatalogIsRead(s.catalog, s.conn.session.value, h, r.catalog) && ImportIsShown(s.tabs, h, r.tabs)
            case SyncPull => CatalogIsRead(s.catalog, s.conn.session.value, h, r.catalog) && r.tabs == s.tabs
            case WorktreeGc => r.catalog == s.catalog && r.tabs == s.tabs
            case PresetDelete =>
              && r.catalog == s.catalog.(newTaskPreset := None, presets := r.catalog.presets)
              && PresetsAre(r.catalog.presets, s.conn.session.value, h) && r.tabs == s.tabs
  {
    hide RefreshCatalog;
    hide CatalogIsRead;
    hide ImportIsShown;
    hide ReloadAgents;
    hide LoadSelectedAgent;
    hide Quiet;
    CatalogRead(s, h);
    if g == SyncImport { ImportShows(s, h); }
  }

  lemma ImportShows(s: App, h: Host)
    requires s.conn.session.Some?
    ensures ImportIsShown(s.tabs, h, AfterGuarded(s, SyncImport, h).tabs)
  {
    hide RefreshCatalog;
    hide ReloadAgents;
    hide LoadSelectedAgent;
    hide ListReplaced;
    hide FirstOfTask;
    hide ListsAgent;
    hide ShownWasRead;
    hide Quiet;
    var catalog := RefreshCatalog(s, h);
    if s.tabs.selectedTask.Some? {
      var task := s.tabs.selectedTask.value;
      var read := ReloadAgents(catalog, task, h);
      LoadReadsShown(read, h);
      if SelectedAgent(read.tabs).None? { NobodyShownReadsNobody(read.tabs, h); }
      assert AfterGuarded(s, SyncImport, h).tabs.(agents := read.tabs.agents) == read.tabs;
      if h.agents(task).Some? {
        ReloadSelects(catalog, task, h);
        SelectedIsShown(catalog, task, h);
      } else {
        UnreadStays(catalog, task, h);
      }
    }
  }

  lemma NobodyShownReadsNobody(t: Tabs, h: Host)
    requires SelectedAgent(t).None?
    ensures ShownWasRead(t, true, h, t.agents)
  {
    hide SelectedAgent;
  }

  /** A preset the host created is picked once it is listed; a host that does not know the command has
      the gate for presets closed. */
  lemma CreatedPresetIsPicked(s: App, valid: bool, h: Host)
    requires SendsFromForm(s, NewPreset(valid), PresetCreate)
    ensures var r := Step(s, NewPreset(valid), h);
            && Has(r.gates, PresetDelete) == (Has(s.gates, PresetDelete) && (h.presetCreated.Some? || !h.unsupported))
            && if h.presetCreated.Some? then
                 && PresetsAre(r.catalog.presets, s.conn.session.value, h)
                 && r.catalog == s.catalog.(presets := r.catalog.presets, newTaskPreset := r.catalog.newTaskPreset)
                 && r.catalog.newTaskPreset ==
                      if h.presetCreated == Some("") then s.catalog.newTaskPreset
                      else if h.presetCreated.value in BUILTIN_PRESETS + r.catalog.presets then h.presetCreated
                      else None
               else r.catalog == s.catalog
  {
    hide Step;
    hide Mon;
    hide Rpcs;
    hide FormFrame;
    FormsStepIs(s, NewPreset(valid), h);
  }

  /** A preset that was saved has the presets read again; the gate as for a created one. */
  lemma SavedPresetIsRead(s: App, valid: bool, h: Host, rpc: Rpc)
    requires SendsFromForm(s, EditPreset(valid), rpc)
    ensures var r := Step(s, EditPreset(valid), h);
            && Has(r.gates, PresetDelete) == (Has(s.gates, PresetDelete) && (h.ok || !h.unsupported))
            && if h.ok then
                 PresetsAre(r.catalog.presets, s.conn.session.value, h)
                 && r.catalog == s.catalog.(presets := r.catalog.presets)
               else r.catalog == s.catalog
  {
    hide Step;
    hide Trim;
    hide Mon;
    hide Rpcs;
    hide FormFrame;
    FormsStepIs(s, EditPreset(valid), h);
  }

  /** An archive or a push the host does not know closes the gate of its family; nothing else changes. */
  lemma SyncFormsAre(s: App, e: Event, h: Host, rpc: Rpc)
    requires (e.Export? || e.Push?) && SendsFromForm(s, e, rpc)
    ensures var r, g := Step(s, e, h), if e.Export? then SyncImport else SyncPull;
            && r == s.(gates := r.gates, trace := r.trace)
            && r.gates == if !h.ok && h.unsupported then Put(s.gates, g, false) else s.gates
  {
    hide Step;
    hide Trim;
    hide Put;
    hide Mon;
    hide Rpcs;
    hide FormFrame;
    FormsStepIs(s, e, h);
  }

  /** The agent whose model was switched is shown as the host answers, then as it reads it again. */
  lemma SwitchedIsShown(s: App, ready: bool, h: Host, id: Id)
    requires SendsAboutAgents(s, SwitchModel(ready), AgentSwitch(id))
    ensures var r := Step(s, SwitchModel(ready), h).tabs;
            && r == s.tabs.(agents := r.agents)
            && if h.switched(id).None? then r.agents == s.tabs.agents
               else exists taken :: FirstIs(s.tabs.agents, id, h.switched(id).value, taken)
                                    && if h.agent(id).None? then r.agents == taken
                                       else FirstIs(taken, id, h.agent(id).value, r.agents)
  {
    hide Step;
    hide SelectedAgent;
    hide AskSwitch;
    hide FirstIs;
    hide Framed;
    hide Stays;
    AgentsStepIs(s, SwitchModel(ready), h);
    AskedSwitch(s, id, h);
  }

  lemma AskedSwitch(s: App, id: Id, h: Host)
    requires s.conn.session.Some?
    ensures var r := AskSwitch(s, id, h).tabs;
            && r == s.tabs.(agents := r.agents)
            && if h.switched(id).None? then r.agents == s.tabs.agents
               else exists taken :: FirstIs(s.tabs.agents, id, h.switched(id).value, taken)
                                    && if h.agent(id).None? then r.agents == taken
                                       else FirstIs(taken, id, h.agent(id).value, r.agents)
  {
    hide RefreshAgent;
    hide FirstIs;
    hide Answered;
    hide Framed;
    hide Mon;
    hide Rpcs;
    if h.switched(id).Some? {
      AnsweredIs(s.tabs.agents, id, h.switched(id));
      var taken := Answered(s.tabs.agents, id, h.switched(id));
      AnsweredIs(taken, id, h.agent(id));
    }
  }

  /** Screens, drafts and the clock are what the user and time make them; a preset is picked only if it is
      known. */
  lemma DraftsAre(s: App, e: Event, h: Host)
    requires FamilyOf(e) == OfDrafts
    ensures Step(s, e, h) ==
            if e.Type? then s.(composer := e.text)
            else if e.SetPeerUrl? then s.(catalog := s.catalog.(peerUrl := e.url))
            else if e.PassTime? then s.(now := s.now + e.ms)
            else if e.PickPreset? then
              s.(catalog := s.catalog.(newTaskPreset :=
                   if e.preset.Some? && e.preset.value in BUILTIN_PRESETS + s.catalog.presets then e.preset else None))
            else s.(tabs := s.tabs.(screen := if e.ShowTasks? then TasksScreen else HostScreen))
  {
  }
}
