/** What follows for whole runs: which step sends what, and when. */
module RunFacts {
  import opened Basics
  import opened Text
  import opened Agents
  import opened A2a
  import opened Traces
  import opened AppModel
  import opened AppRuns
  import TabOrder

  // ------------------------------------------------------------ every reachable state

  /** Online means a session and its own token; offline means no session, token or bridge. */
  lemma OnlineHasItsToken(events: seq<(Event, Host)>)
    ensures var c := Run(Initial, events).conn;
            && (c.status == Online ==> c.session.Some? && c.token == Some(c.session.value.token))
            && (c.status == Offline ==> c.session.None? && c.token.None? && c.ws.None?)
  {
    hide Run;
    EveryRunIsOk(events);
  }

  /** Tabs, selection, memory and approvals never contradict each other. */
  lemma TabsAgree(events: seq<(Event, Host)>)
    ensures var t := Run(Initial, events).tabs;
            && Distinct(t.open)
            && (t.selectedTask.None? || t.selectedTask.value in t.open)
            && (t.screen == Canvas ==> t.selectedTask.Some?)
            && (forall k :: k in t.remembered ==> k in t.open)
            && (forall k :: k in t.approvals ==> t.approvals[k].agentId == k && t.approvals[k].taskId in t.open)
  {
    hide Run;
    EveryRunIsOk(events);
  }

  /** A cancel of a is pending exactly while a worker or a queued result for a is the only one
      outstanding. */
  lemma PendingIffOutstanding(events: seq<(Event, Host)>, a: Id)
    ensures var c := Run(Initial, events).cancel;
            && |c.workers| + |c.results| <= 1
            && (c.pending == Some(a) <==> c.workers == [a] || (|c.results| == 1 && c.results[0].agentId == a))
  {
    hide Run;
    EveryRunIsOk(events);
    var c := Run(Initial, events).cancel;
    var outstanding := Outstanding(c);
    if c.workers != [] { assert outstanding[0] == c.workers[0]; }
    if c.results != [] { assert outstanding[|c.workers|] == c.results[0].agentId; }
  }

  /** The search popup is open exactly when a search ran, and then its query is known. */
  lemma PopupIffRan(events: seq<(Event, Host)>)
    ensures var search := Run(Initial, events).search;
            (PopupOpen(search) <==> search.ran) && (search.ran <==> search.lastQ.Some?)
  {
    hide Run;
    EveryRunIsOk(events);
  }

  /** No message id but the empty one is in the inbox twice, whatever arrived in whatever order. */
  lemma InboxHoldsIdsOnce(events: seq<(Event, Host)>, i: nat, j: nat)
    requires i < j < |Run(Initial, events).inbox|
    ensures var inbox := Run(Initial, events).inbox;
            inbox[i].messageId == inbox[j].messageId ==> inbox[i].messageId == ""
  {
    hide Run;
    EveryRunIsOk(events);
  }

  // ------------------------------------------------------------ what a step leaves alone

  lemma OpenIsFramed(s: App, id: Id, h: Host)
    ensures Framed(s, OpenTask(s, id, h))
  {
    hide OpenTask;
  }

  lemma TabStepIsFramed(s: App, e: Event, h: Host)
    requires AboutTabs(e)
    ensures Framed(s, TabStep(s, e, h))
  {
    hide Framed;
    hide Stays;
    hide OpenTask;
    hide SwitchTaskTab;
    hide CloseTaskTab;
    hide SelectAgent;
    hide CreateTask;
    hide CreateAgent;
    hide CreateChild;
    hide RemoveAgent;
    if e.Open? { OpenIsFramed(s, e.id, h); }
  }

  lemma TalkStepIsFramed(s: App, e: Event, h: Host)
    requires AboutTalk(e) && !e.WorkerReply?
    ensures Framed(s, TalkStep(s, e, h))
  {
    hide Framed;
    hide Stays;
    hide ModEnter;
    hide SendComposer;
    hide SteerComposer;
    hide CancelRunningAgent;
    hide TickRpc;
    hide RespondApproval;
  }

  lemma SearchStepIsFramed(s: App, e: Event, h: Host)
    requires AboutSearch(e)
    ensures Framed(s, SearchStep(s, e, h))
  {
    hide Framed;
    hide Stays;
    hide EditSearch;
    hide SubmitSearch;
    hide SearchEnter;
    hide ActivateSearchResult;
    hide DismissSearch;
  }

  lemma AgentsStepIsFramed(s: App, e: Event, h: Host)
    requires AboutAgents(e) && !e.Drag?
    ensures Framed(s, AgentsStep(s, e, h))
  {
    hide Stays;
    hide Mon;
    hide Rpcs;
    hide ApprovalAsked;
    hide StatusChanged;
    hide Deliver;
    hide ToggleDir;
    hide SwitchAgent;
    hide UpdateRole;
  }

  lemma DraftStepIsFramed(s: App, e: Event)
    ensures Framed(s, DraftStep(s, e))
  {
    hide Mon;
    hide Rpcs;
    hide PresetPicked;
  }

  /** Apart from discoveries, gates, forms, cancel workers and drags, a step moves neither connection,
      gates nor tab order, sends no guarded RPC, and sends nothing without a session. */
  lemma StepIsFramed(s: App, e: Event, h: Host)
    requires !AboutConnection(e) && !AboutGates(e) && !AboutForms(e) && !e.WorkerReply? && !e.Drag?
    ensures Framed(s, Step(s, e, h))
  {
    hide Framed;
    hide TabStep;
    hide TalkStep;
    hide SearchStep;
    hide AgentsStep;
    hide FormStep;
    hide DraftStep;
    if AboutTabs(e) {
      TabStepIsFramed(s, e, h);
    } else if AboutTalk(e) {
      TalkStepIsFramed(s, e, h);
    } else if AboutSearch(e) {
      SearchStepIsFramed(s, e, h);
    } else if AboutAgents(e) {
      AgentsStepIsFramed(s, e, h);
    } else {
      DraftStepIsFramed(s, e);
    }
  }

  lemma DragOnlyReorders(s: App, e: Event, h: Host)
    requires e.Drag?
    ensures Step(s, e, h) == s.(order := TabOrder.Drop(s.order, Listed(s.tabs), e.agentId, e.tileId))
  {
    hide TabOrder.Drop;
    hide Listed;
  }

  lemma WorkerOnlyAnswers(s: App, e: Event, h: Host)
    requires e.WorkerReply?
    ensures var r := Step(s, e, h);
            r == s.(cancel := r.cancel, trace := r.trace) && Mon(r.trace).guarded == Mon(s.trace).guarded
  {
    hide Mon;
    hide Rpcs;
  }

  lemma ConnectionStepFrame(s: App, e: Event, h: Host)
    requires AboutConnection(e)
    ensures var r := ConnectionStep(s, e, h);
            r.gates == s.gates && r.order == s.order && Mon(r.trace).guarded == Mon(s.trace).guarded
  {
    hide TickDiscovery;
    hide ReloadCanvas;
    hide Mon;
    hide Rpcs;
    if e.Discover? { DiscoverFrame(s, h); }
  }

  lemma DiscoverFrame(s: App, h: Host)
    ensures var r := TickDiscovery(s, h);
            r.gates == s.gates && r.order == s.order && Mon(r.trace).guarded == Mon(s.trace).guarded
  {
    hide Mon;
    hide Rpcs;
    hide ReloadCanvas;
    hide RefreshCatalog;
  }

  lemma OtherStepsLeaveGates(s: App, e: Event, h: Host)
    requires !AboutGates(e)
    ensures forall g :: Has(Step(s, e, h).gates, g) ==> Has(s.gates, g)
    ensures Mon(Step(s, e, h).trace).guarded == Mon(s.trace).guarded
    ensures !e.Drag? ==> Step(s, e, h).order == s.order
  {
    hide Step;
    hide ConnectionStep;
    hide FormStep;
    hide Mon;
    hide Rpcs;
    if AboutConnection(e) {
      ConnectionStepIs(s, e, h);
      ConnectionStepFrame(s, e, h);
    } else if e.Drag? {
      DragOnlyReorders(s, e, h);
    } else if e.WorkerReply? {
      WorkerOnlyAnswers(s, e, h);
    } else if AboutForms(e) {
      FormsStepIs(s, e, h);
    } else {
      StepIsFramed(s, e, h);
    }
  }

  // ------------------------------------------------------------ gates

  predicate MovesGate(e: Event, g: Gate) {
    e == Request(g) || e == Withdraw(g) || (e.Confirm? && e.gate == g)
  }

  lemma AfterGuardedIsQuiet(s: App, g: Gate, h: Host)
    ensures AfterGuarded(s, g, h).gates == s.gates && Mon(AfterGuarded(s, g, h).trace) == Mon(s.trace)
  {
    hide RefreshCatalog;
    hide ReloadAgents;
    hide LoadSelectedAgent;
    hide Mon;
    hide Rpcs;
  }

  /** A confirmation of an open gate closes it and sends at most the one RPC it guards. */
  lemma ConfirmStep(s: App, g: Gate, picked: bool, h: Host)
    ensures var r := ConfirmGate(s, g, picked, h);
            && r.gates == (if Has(s.gates, g) then Put(s.gates, g, false) else s.gates)
            && (Mon(r.trace).guarded == Mon(s.trace).guarded
                || (Has(s.gates, g) && Mon(r.trace).guarded == Mon(s.trace).guarded + [g]))
  {
    hide Mon;
    hide Rpcs;
    hide AfterGuarded;
    hide Offered;
    hide Prepared;
    hide Put;
    var closed := Note(CloseGate(s, g), Confirmed(g));
    AfterGuardedIsQuiet(Emit(closed, Guarded(g)), g, h);
  }

  lemma RequestStep(s: App, g: Gate)
    ensures Mon(RequestGate(s, g).trace).guarded == Mon(s.trace).guarded
    ensures Mon(WithdrawGate(s, g).trace).guarded == Mon(s.trace).guarded
    ensures WithdrawGate(s, g).gates == Put(s.gates, g, false)
    ensures RequestGate(s, g).gates in {s.gates, Put(s.gates, g, false), Put(s.gates, g, true)}
  {
    hide Mon;
    hide Rpcs;
    hide Offered;
    hide Prepared;
    hide Put;
  }

  /** Only a confirmation of an open gate sends a guarded RPC, one, and closes the gate. */
  lemma OnlyConfirmationsSend(s: App, e: Event, h: Host, g: Gate)
    requires AboutGates(e)
    ensures var r := GateStep(s, e, h);
            && (Has(r.gates, g) ==> e == Request(g) || (Has(s.gates, g) && !MovesGate(e, g)))
            && (Mon(r.trace).guarded != Mon(s.trace).guarded ==>
                  e.Confirm? && Has(s.gates, e.gate) && Mon(r.trace).guarded == Mon(s.trace).guarded + [e.gate])
  {
    hide Mon;
    hide RequestGate;
    hide WithdrawGate;
    hide ConfirmGate;
    RequestStep(s, e.gate);
    if e.Confirm? { ConfirmStep(s, e.gate, e.picked, h); }
  }

  /** Only a drag reorders the tabs. */
  lemma OtherStepsKeepOrder(s: App, e: Event, h: Host)
    requires !e.Drag?
    ensures Step(s, e, h).order == s.order
  {
    hide ConnectionStep;
    hide TabStep;
    hide TalkStep;
    hide SearchStep;
    hide GateStep;
    hide AgentsStep;
    hide FormStep;
    hide DraftStep;
    hide Mon;
    if AboutGates(e) { GateStepKeepsOrder(s, e, h); } else { OtherStepsLeaveGates(s, e, h); }
  }

  lemma GateStepKeepsOrder(s: App, e: Event, h: Host)
    requires AboutGates(e)
    ensures GateStep(s, e, h).order == s.order
  {
    hide RequestGate;
    hide WithdrawGate;
    hide ConfirmGate;
    if e.Confirm? { ConfirmKeepsOrder(s, e.gate, e.picked, h); }
  }

  lemma ConfirmKeepsOrder(s: App, g: Gate, picked: bool, h: Host)
    ensures ConfirmGate(s, g, picked, h).order == s.order
  {
    hide Mon;
    hide Rpcs;
    hide RefreshCatalog;
    hide ReloadAgents;
    hide LoadSelectedAgent;
    hide Offered;
    hide Prepared;
  }

  /** A drag that is ignored, or finds the ids the stored order does not name distinct. */
  ghost predicate CleanDrag(s: App, e: Event)
    requires e.Drag?
  {
    var listed := Listed(s.tabs);
    TabOrder.Ignored(listed, e.agentId, e.tileId) || Distinct(TabOrder.Unnamed(s.order, listed))
  }

  /** The stored order has no duplicate at any point of the run. */
  ghost predicate OrderStaysDistinct(events: seq<(Event, Host)>) {
    forall k :: 0 <= k <= |events| ==> Distinct(Run(Initial, events[..k]).order)
  }

  ghost predicate DragsAreClean(events: seq<(Event, Host)>) {
    forall k :: 0 <= k < |events| && events[k].0.Drag? ==> CleanDrag(Run(Initial, events[..k]), events[k].0)
  }

  lemma OrderStaysDistinctStep(front: seq<(Event, Host)>, x: (Event, Host))
    ensures OrderStaysDistinct(front + [x]) <==>
            OrderStaysDistinct(front) && Distinct(Run(Initial, front + [x]).order)
  {
    hide Run;
    hide Distinct;
    var events := front + [x];
    assert forall k :: 0 <= k <= |front| ==> front[..k] == events[..k];
    assert events[..|events|] == events;
  }

  lemma DragsAreCleanStep(front: seq<(Event, Host)>, x: (Event, Host))
    ensures DragsAreClean(front + [x]) <==>
            DragsAreClean(front) && (x.0.Drag? ==> CleanDrag(Run(Initial, front), x.0))
  {
    hide Run;
    hide CleanDrag;
    var events := front + [x];
    assert forall k :: 0 <= k < |front| ==> front[..k] == events[..k] && front[k] == events[k];
    assert events[..|front|] == front && events[|front|] == x;
  }

  /** The stored order never gets a duplicate in a run exactly when every drag is either ignored
      or finds the ids it does not name distinct. */
  lemma {:induction false} OrderStaysDistinctIff(events: seq<(Event, Host)>)
    ensures OrderStaysDistinct(events) <==> DragsAreClean(events)
  {
    hide Step;
    hide CleanDrag;
    hide OrderStaysDistinct;
    hide DragsAreClean;
    if events == [] {
      NoDuplicateYet();
    } else {
      var front, x := events[..|events| - 1], Last(events);
      assert events == front + [x];
      OrderStaysDistinctIff(front);
      OrderStaysDistinctStep(front, x);
      DragsAreCleanStep(front, x);
      if OrderStaysDistinct(front) {
        DistinctAtEnd(front);
        StepDistinctIff(Run(Initial, front), x.0, x.1);
      }
    }
  }

  lemma NoDuplicateYet()
    ensures OrderStaysDistinct([]) && DragsAreClean([])
  {
    assert Run(Initial, []).order == [];
  }

  lemma DistinctAtEnd(events: seq<(Event, Host)>)
    requires OrderStaysDistinct(events)
    ensures Distinct(Run(Initial, events).order)
  {
    hide Run;
    assert events[..|events|] == events;
  }

  lemma StepDistinctIff(s: App, e: Event, h: Host)
    requires Distinct(s.order)
    ensures Distinct(Step(s, e, h).order) <==> (e.Drag? ==> CleanDrag(s, e))
  {
    hide Step;
    hide TabOrder.Drop;
    hide TabOrder.Ignored;
    hide TabOrder.Unnamed;
    if e.Drag? {
      DragOnlyReorders(s, e, h);
      TabOrder.DropDistinctIff(s.order, Listed(s.tabs), e.agentId, e.tileId);
    } else {
      OtherStepsKeepOrder(s, e, h);
    }
  }

  lemma OpenGateStayedOpen(s: App, e: Event, h: Host, g: Gate)
    requires Has(Step(s, e, h).gates, g) && e != Request(g)
    ensures Has(s.gates, g) && !MovesGate(e, g)
  {
    hide Step;
    hide GateStep;
    hide Mon;
    if AboutGates(e) {
      GatesStepIs(s, e, h);
      OnlyConfirmationsSend(s, e, h, g);
    } else {
      OtherStepsLeaveGates(s, e, h);
    }
  }

  /** An open gate was requested, and neither withdrawn nor confirmed since. */
  lemma {:induction false} OpenGateWasRequested(events: seq<(Event, Host)>, g: Gate) returns (m: nat)
    requires Has(Run(Initial, events).gates, g)
    ensures m < |events| && events[m].0 == Request(g)
    ensures forall k :: m < k < |events| ==> !MovesGate(events[k].0, g) || events[k].0 == Request(g)
  {
    hide Step;
    hide Mon;
    assert events != [];
    var front := events[..|events| - 1];
    var (e, h) := Last(events);
    var s := Run(Initial, front);
    if e == Request(g) {
      m := |events| - 1;
    } else {
      OpenGateStayedOpen(s, e, h, g);
      m := OpenGateWasRequested(front, g);
      assert forall k :: 0 <= k < |front| ==> front[k] == events[k];
    }
  }

  /** Only confirming an open gate sends a guarded RPC, and sends it once. */
  lemma GuardedRpcConfirms(s: App, e: Event, h: Host)
    requires Mon(Step(s, e, h).trace).guarded != Mon(s.trace).guarded
    ensures e.Confirm? && Has(s.gates, e.gate)
    ensures Mon(Step(s, e, h).trace).guarded == Mon(s.trace).guarded + [e.gate]
  {
    hide Step;
    hide GateStep;
    hide Mon;
    if AboutGates(e) {
      GatesStepIs(s, e, h);
      OnlyConfirmationsSend(s, e, h, e.gate);
    } else {
      OtherStepsLeaveGates(s, e, h);
    }
  }

  /** Whenever a step of a run sends a guarded RPC, that step confirms its gate, sends that RPC
      once, and answers an earlier request with no withdrawal or other confirmation since. */
  lemma GuardedRpcAnswersItsRequest(events: seq<(Event, Host)>, e: Event, h: Host) returns (m: nat)
    requires var s := Run(Initial, events); Mon(Step(s, e, h).trace).guarded != Mon(s.trace).guarded
    ensures e.Confirm?
    ensures var s := Run(Initial, events); Mon(Step(s, e, h).trace).guarded == Mon(s.trace).guarded + [e.gate]
    ensures m < |events| && events[m].0 == Request(e.gate)
    ensures forall k :: m < k < |events| ==> !MovesGate(events[k].0, e.gate) || events[k].0 == Request(e.gate)
  {
    hide Run;
    hide Step;
    hide Mon;
    GuardedRpcConfirms(Run(Initial, events), e, h);
    m := OpenGateWasRequested(events, e.gate);
  }

  /** Such runs exist: discover a host, ask to import, confirm. */
  lemma AnImportCanHappen() returns (events: seq<(Event, Host)>, e: Event, h: Host)
    ensures Mon(Run(Initial, events).trace).guarded == []
    ensures Mon(Step(Run(Initial, events), e, h).trace).guarded == [SyncImport]
  {
    hide Step;
    hide Mon;
    var session := Session("token", None, true, false, false, false, false, false, false, false, false);
    h := Host(true, Some(session), true, Some(["w"]), _ => None, _ => None, _ => None,
              None, None, Err(()), None, None, None, None, _ => None, _ => None, None, true, false);
    e := Confirm(SyncImport, true);
    events := [(Discover, h), (Request(SyncImport), h)];
    TwoSteps(events);
    DiscoveredSession(h, session);
    OtherStepsLeaveGates(Initial, Discover, h);
    RequestOpens(Step(Initial, Discover, h), h);
    ConfirmSends(Run(Initial, events), h);
    NothingYet();
  }

  /** An import may be asked for: the host can do it and a workspace is chosen. */
  predicate CanImport(s: App) {
    s.conn.session.Some? && s.conn.session.value.sync && s.catalog.workspaceId == Some("w")
  }

  lemma RequestOpens(s: App, h: Host)
    requires CanImport(s)
    ensures var r := Step(s, Request(SyncImport), h);
            CanImport(r) && r.gates.syncImport && Mon(r.trace).guarded == Mon(s.trace).guarded
  {
    hide Step;
    hide Mon;
    hide RequestGate;
    GatesStepIs(s, Request(SyncImport), h);
    OfferedImport(s);
    RequestStep(s, SyncImport);
  }

  lemma ConfirmSends(s: App, h: Host)
    requires CanImport(s) && s.gates.syncImport && h.ok
    ensures Mon(Step(s, Confirm(SyncImport, true), h).trace).guarded == Mon(s.trace).guarded + [SyncImport]
  {
    hide Step;
    hide Mon;
    hide ConfirmGate;
    hide CanImport;
    GatesStepIs(s, Confirm(SyncImport, true), h);
    ConfirmedImport(s, h);
  }

  lemma NothingYet()
    ensures Mon(Initial.trace).guarded == []
  {
  }

  lemma TwoSteps(events: seq<(Event, Host)>)
    requires |events| == 2
    ensures Run(Initial, events) == Step(Step(Initial, events[0].0, events[0].1), events[1].0, events[1].1)
  {
    hide Step;
    assert events[..1][..0] == [];
    assert Run(Initial, events[..1]) == Step(Run(Initial, []), events[0].0, events[0].1);
  }

  lemma DiscoveredSession(h: Host, session: Session)
    requires h.pidFile && h.connect == Some(session) && h.workspaces == Some(["w"])
    ensures var r := Step(Initial, Discover, h);
            r.conn.status == Online && r.conn.session == Some(session) && r.catalog.workspaceId == Some("w")
  {
    hide Mon;
    hide Rpcs;
    hide ReloadCanvas;
    hide WsUrl;
    hide Quiet;
  }

  lemma OfferedImport(s: App)
    requires CanImport(s)
    ensures var r := RequestGate(s, SyncImport);
            r == s.(gates := r.gates, trace := r.trace) && r.gates.syncImport
  {
    hide Mon;
    hide Rpcs;
    hide Trim;
    TrimmedName();
  }

  lemma TrimmedName()
    ensures Trim("w") == "w"
  {
  }

  lemma ConfirmedImport(s: App, h: Host)
    requires CanImport(s) && s.gates.syncImport && h.ok
    ensures Mon(ConfirmGate(s, SyncImport, true, h).trace).guarded == Mon(s.trace).guarded + [SyncImport]
  {
    hide Mon;
    hide Rpcs;
    hide AfterGuarded;
    hide Trim;
    TrimmedName();
    var closed := Note(CloseGate(s, SyncImport), Confirmed(SyncImport));
    AfterGuardedIsQuiet(Emit(closed, Guarded(SyncImport)), SyncImport, h);
  }

  // ------------------------------------------------------------ silence

  /** Without a session no step sends anything, but for a discovery and for the answer a cancel
      worker fetches over the session it was started with. */
  lemma SilentWithoutSession(s: App, e: Event, h: Host)
    requires Inv(s) && s.conn.session.None?
    requires !e.Discover? && !e.WorkerReply?
    ensures Rpcs(Step(s, e, h).trace) == Rpcs(s.trace)
  {
    hide ConnectionStep;
    hide TabStep;
    hide TalkStep;
    hide SearchStep;
    hide GateStep;
    hide AgentsStep;
    hide FormStep;
    hide DraftStep;
    hide Mon;
    hide Rpcs;
    if AboutConnection(e) {
      SilentConnection(s, e, h);
    } else if AboutGates(e) {
      SilentGates(s, e, h);
    } else if AboutForms(e) {
      FormsStepIs(s, e, h);
    } else if e.Drag? {
      DragOnlyReorders(s, e, h);
    } else {
      StepIsFramed(s, e, h);
    }
  }

  lemma SilentConnection(s: App, e: Event, h: Host)
    requires Inv(s) && s.conn.session.None?
    requires AboutConnection(e) && !e.Discover?
    ensures ConnectionStep(s, e, h).trace == s.trace
  {
    hide Mon;
    hide Rpcs;
    hide RefreshCanvasAfterReconnect;
  }

  lemma SilentGates(s: App, e: Event, h: Host)
    requires s.conn.session.None?
    requires AboutGates(e)
    ensures Rpcs(GateStep(s, e, h).trace) == Rpcs(s.trace)
  {
    hide RequestGate;
    hide WithdrawGate;
    hide ConfirmGate;
    hide Rpcs;
    SilentGate(s, e.gate);
    if e.Confirm? { SilentConfirm(s, e.gate, e.picked, h); }
  }

  lemma SilentGate(s: App, g: Gate)
    ensures Rpcs(RequestGate(s, g).trace) == Rpcs(s.trace)
    ensures Rpcs(WithdrawGate(s, g).trace) == Rpcs(s.trace)
  {
    hide Mon;
    hide Rpcs;
    hide Offered;
    hide Prepared;
  }

  lemma SilentConfirm(s: App, g: Gate, picked: bool, h: Host)
    requires s.conn.session.None?
    ensures Rpcs(ConfirmGate(s, g, picked, h).trace) == Rpcs(s.trace)
  {
    hide Mon;
    hide Rpcs;
    hide AfterGuarded;
    hide Prepared;
  }

  /** While a run shows the host as offline, nothing but a discovery or a late cancel answer
      sends an RPC. */
  lemma OfflineIsSilent(events: seq<(Event, Host)>, e: Event, h: Host)
    requires Run(Initial, events).conn.status == Offline
    ensures !e.Discover? && !e.WorkerReply? ==>
              Rpcs(Step(Run(Initial, events), e, h).trace) == Rpcs(Run(Initial, events).trace)
  {
    hide Step;
    hide Rpcs;
    hide Run;
    hide Mon;
    EveryRunIsOk(events);
    if !e.Discover? && !e.WorkerReply? { SilentWithoutSession(Run(Initial, events), e, h); }
  }

  // ------------------------------------------------------------ sending and steering

  /** What one Enter sends: nothing, or one message to the agent that is shown; it steers if
      that agent runs and sends if it does not, and never while a cancel is pending. */
  lemma EnterSendsAtMostOne(s: App, h: Host)
    ensures var sent, shown := Rpcs(ModEnter(s, h).trace), SelectedAgent(s.tabs);
            || sent == Rpcs(s.trace)
            || (s.cancel.pending.None? && shown.Some? && Trim(s.composer) != ""
                && sent == Rpcs(s.trace) + [if shown.value.status == Running
                                           then AgentSteer(shown.value.id, Trim(s.composer))
                                           else AgentSend(shown.value.id, Trim(s.composer))])
  {
    hide Rpcs;
    hide Mon;
    hide Trim;
    hide SelectedAgent;
  }

  /** From the start of a cancel until its result is drained no run sends, steers or starts
      another cancel. */
  lemma NoRunTalksWhileCancelling(events: seq<(Event, Host)>, i: nat, k: nat, a: Id)
    requires var t := Run(Initial, events).trace;
             i < k < |t| && t[i] == CancelStarted(a) && forall x, b :: i < x < k ==> t[x] != CancelEnded(b)
    ensures var o := Run(Initial, events).trace[k];
            && !(o.Sent? && (o.rpc.AgentSend? || o.rpc.AgentSteer?)) && !o.CancelStarted?
            && (o.CancelEnded? ==> o == CancelEnded(a))
  {
    hide Run;
    EveryRunIsOk(events);
    NothingSentWhileCancelling(Run(Initial, events).trace, i, k, a);
  }

  /** No cancel stays pending for good: once its worker has answered, whatever the answer, the
      next tick ends it; and until then there is a worker that will answer. */
  lemma CancelsEnd(events: seq<(Event, Host)>, answer: Host, next: Host)
    ensures var s := Run(Initial, events);
            && (s.cancel.pending.Some? ==> s.cancel.workers != [] || s.cancel.results != [])
            && Step(Step(s, WorkerReply, answer), Tick, next).cancel == Cancel(None, [], [])
  {
    hide Run;
    hide Step;
    hide Inv;
    hide TickRpc;
    hide WorkerDone;
    EveryRunIsOk(events);
    var s := Run(Initial, events);
    PendingHasWork(s);
    TalkStepIs(s, WorkerReply, answer);
    WorkerKeeps(s, answer);
    var answered := WorkerDone(s, answer);
    WorkerQueues(s, answer);
    PendingHasWork(answered);
    TalkStepIs(answered, Tick, next);
    TickKeeps(answered, next);
  }

  lemma PendingHasWork(s: App)
    requires Inv(s)
    ensures s.cancel.pending.Some? <==> s.cancel.workers != [] || s.cancel.results != []
  {
    hide Mon;
    if s.cancel.workers != [] || s.cancel.results != [] { assert Outstanding(s.cancel) != []; }
  }

  /** Afterwards no worker is running. */
  lemma WorkerQueues(s: App, h: Host)
    requires Inv(s)
    ensures WorkerDone(s, h).cancel.workers == []
    ensures WorkerDone(s, h).cancel.results != [] <==> s.cancel.pending.Some?
  {
    hide Mon;
    hide Rpcs;
    PendingHasWork(s);
    if s.cancel.workers != [] { assert |Outstanding(s.cancel)| == |s.cancel.workers| + |s.cancel.results|; }
  }

  // ------------------------------------------------------------ searching

  /** No run asks the same thing twice in a row without a dismissal or blank submit between. */
  lemma NoRunRepeatsAQuery(events: seq<(Event, Host)>, i: nat, j: nat, q: string)
    requires var t := Run(Initial, events).trace;
             i < j < |t| && t[i] == t[j] == Sent(SearchQuery(q))
             && forall k :: i < k < j ==> !(t[k].Sent? && t[k].rpc.SearchQuery?)
    ensures exists k :: i < k < j && Run(Initial, events).trace[k] == Cleared
  {
    hide Run;
    EveryRunIsOk(events);
    RepeatedQueryWasCleared(Run(Initial, events).trace, i, j, q);
  }

  /** In no run does the debounce submit early, or twice for one edit. */
  lemma EveryDebounceIsPatient(events: seq<(Event, Host)>, i: nat, at: nat) returns (e: nat)
    requires var t := Run(Initial, events).trace; i < |t| && t[i] == Debounced(at)
    ensures var t := Run(Initial, events).trace;
            && e < i && t[e].Edited? && t[e].at + SEARCH_DEBOUNCE_MS <= at
            && forall k :: e < k < i ==> !t[k].Edited? && !t[k].Debounced?
  {
    hide Run;
    EveryRunIsOk(events);
    e := DebounceAnswersLastEdit(Run(Initial, events).trace, i, at);
  }

  // ------------------------------------------------------------ directories

  /** Toggling flips the one directory, asks the host only for a directory never listed since
      the canvas was loaded, and then at most once; nothing changes if there is no answer. */
  lemma ToggleAsksOnce(s: App, path: string, h: Host)
    requires DirsOk(s.dirs)
    ensures var r := ToggleDir(s, path, h);
            && (r.dirs == s.dirs || (path in r.dirs.expanded <==> path !in s.dirs.expanded))
            && (r.dirs == s.dirs ==> path !in s.dirs.children)
            && (r.dirs != s.dirs ==> path in r.dirs.children)
            && (forall q :: q != path ==> (q in r.dirs.expanded <==> q in s.dirs.expanded))
            && (forall q :: q in s.dirs.children ==> q in r.dirs.children && r.dirs.children[q] == s.dirs.children[q])
    ensures Rpcs(ToggleDir(s, path, h).trace) ==
            Rpcs(s.trace) + (if path in s.dirs.children || s.catalog.workspaceId.None? || s.conn.session.None?
                             then [] else [FilesTree(path)])
  {
    hide Framed;
    hide Stays;
    hide Mon;
    hide Rpcs;
  }
}
