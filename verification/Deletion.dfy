/** Deleting an agent (state.rs, remove_agent): what happens to the conversation tree of the
    selected task and to the inbox. */
module Deletion {
  import opened Basics
  import opened Forest
  import opened ForestFacts
  import opened Agents
  import opened A2a
  import opened Traces
  import opened AppModel
  import opened AppRuns
  import opened RunFacts
  import opened TabBarFacts

  // ------------------------------------------------------------ the tree

  lemma WithoutCommutes(agents: seq<AgentStub>, id: Id, task: Id)
    ensures OfTask(Without(agents, id), task) == Without(OfTask(agents, task), id)
  {
    WithoutWhere(agents, id, (a: AgentStub) => a.taskId == task);
  }

  ghost function IdsOfTask(agents: seq<AgentStub>, task: Id): set<Id> {
    ToSet(AgentIds(OfTask(agents, task)))
  }

  /** The host's current entry of an agent has the id and task the client knows, and the same
      parent among the agents of the task. The host has not heard of deletions. */
  ghost predicate Agrees(h: Host, agents: seq<AgentStub>) {
    forall a :: a in agents ==> SameEntry(h.agent(a.id), a, IdsOfTask(agents, a.taskId))
  }

  ghost predicate SameEntry(reply: Option<AgentStub>, a: AgentStub, ids: set<Id>) {
    reply.Some? ==> reply.value.taskId == a.taskId && SamePlace(Place(reply.value), Place(a), ids)
  }

  lemma {:induction false} WithoutMembers(agents: seq<AgentStub>, id: Id, x: AgentStub) returns (a: AgentStub)
    requires x in Without(agents, id)
    ensures a in agents && a.id != id && x == Orphan(a, id)
  {
    var front := agents[..|agents| - 1];
    assert agents == front + [Last(agents)];
    if x in Without(front, id) {
      a := WithoutMembers(front, id, x);
    } else {
      a := Last(agents);
    }
  }

  lemma WithoutIds(agents: seq<AgentStub>, id: Id)
    ensures forall x :: x in ToSet(AgentIds(Without(agents, id))) <==> x in ToSet(AgentIds(agents)) && x != id
  {
    WithoutEntries(agents, id);
    assert Ids(Entries(agents)) == AgentIds(agents);
    assert Ids(Entries(Without(agents, id))) == AgentIds(Without(agents, id));
    forall x ensures x in AgentIds(Without(agents, id)) <==> x in AgentIds(agents) && x != id {
      RemoveIds(Entries(agents), id, x);
    }
  }

  /** Taking over the host's entry of a survivor moves no pointer among the survivors. */
  lemma OrphanIsAlike(reply: AgentStub, a: AgentStub, id: Id, before: set<Id>, after: set<Id>)
    requires SamePlace(Place(reply), Place(a), before)
    requires forall x :: x in after <==> x in before && x != id
    ensures SamePlace(Place(Orphan(a, id)), Place(reply), after)
  {
  }

  lemma {:induction false} RefreshAlike(agents: seq<AgentStub>, k: nat, reply: AgentStub, task: Id, ids: set<Id>)
    requires k < |agents| && reply.taskId == agents[k].taskId
    requires agents[k].taskId == task ==> SamePlace(Place(agents[k]), Place(reply), ids)
    ensures StubsAlike(OfTask(agents, task), OfTask(agents[k := reply], task), ids)
  {
    var front := agents[..|agents| - 1];
    if k == |agents| - 1 {
      assert agents[k := reply][..|agents| - 1] == front;
    } else {
      assert agents[k := reply][..|agents| - 1] == front[k := reply];
      RefreshAlike(front, k, reply, task, ids);
    }
  }

  /** Loading the shown agent after a deletion leaves the agents of the task alike. */
  lemma LoadAlike(s: App, h: Host, id: Id, before: seq<AgentStub>, task: Id)
    requires s.tabs.selectedTask == Some(task) && s.tabs.agents == Without(before, id) && Agrees(h, before)
    ensures StubsAlike(OfTask(s.tabs.agents, task), OfTask(LoadSelectedAgent(s, h).tabs.agents, task),
                       IdsOfTask(s.tabs.agents, task))
  {
    hide LoadSelectedAgent;
    hide SamePlace;
    hide SelectedAgent;
    hide OfTask;
    hide Without;
    LoadChangesOne(s, h);
    var after := LoadSelectedAgent(s, h).tabs.agents;
    AlikeItself(OfTask(s.tabs.agents, task), IdsOfTask(s.tabs.agents, task));
    if after != s.tabs.agents {
      var shown := SelectedAgent(s.tabs).value.id;
      var k := Find(s.tabs.agents, shown);
      var a := WithoutMembers(before, id, s.tabs.agents[k]);
      var reply := h.agent(shown).value;
      assert SameEntry(h.agent(a.id), a, IdsOfTask(before, a.taskId));
      WithoutCommutes(before, id, task);
      WithoutIds(OfTask(before, task), id);
      if a.taskId == task {
        OrphanIsAlike(reply, a, id, IdsOfTask(before, task), IdsOfTask(s.tabs.agents, task));
      }
      RefreshAlike(s.tabs.agents, k, reply, task, IdsOfTask(s.tabs.agents, task));
    }
  }

  lemma AlikeItself(agents: seq<AgentStub>, ids: set<Id>)
    ensures StubsAlike(agents, agents, ids)
  {
  }

  /** Loading takes over at most the host's entry of the shown agent. */
  lemma LoadChangesOne(s: App, h: Host)
    ensures var after := LoadSelectedAgent(s, h).tabs.agents;
            || after == s.tabs.agents
            || (SelectedAgent(s.tabs).Some?
                && var id := SelectedAgent(s.tabs).value.id;
                   var k := Find(s.tabs.agents, id);
                   h.agent(id).Some? && k < |s.tabs.agents| && after == s.tabs.agents[k := h.agent(id).value])
  {
    hide SelectedAgent;
    hide RefreshAgent;
    hide Find;
    hide Quiet;
    hide Mon;
    hide IdsOnce;
  }

  /** What the tree is built over after a deletion, reload included: the tab bar as it was, less
      the deleted agent, but that pointers to agents not in it may differ. */
  lemma DeletionEntries(s: App, id: Id, h: Host)
    requires Agrees(h, s.tabs.agents)
    ensures Alike(Entries(Without(TabBar(s), id)), Entries(TabBar(Step(s, Delete(id), h))))
  {
    hide Step;
    hide OrderedAgents;
    hide Without;
    hide Alike;
    var t := s.tabs.(agents := Without(s.tabs.agents, id));
    var before, after := AgentsForSelectedTask(s.tabs), AgentsForSelectedTask(Step(s, Delete(id), h).tabs);
    DeletedListAlike(s, id, h);
    OrderedWithout(s.order, before, id);
    OrderedMembers(s.order, Without(before, id));
    OrderedAlike(s.order, Without(before, id), after, ToSet(AgentIds(Without(before, id))));
    DeletionKeepsOrder(s, id, h);
    AlikeEntries(Without(TabBar(s), id), TabBar(Step(s, Delete(id), h)));
  }

  lemma DeletionKeepsOrder(s: App, id: Id, h: Host)
    ensures Step(s, Delete(id), h).order == s.order
  {
    hide RemoveAgent;
    hide Stays;
    hide Mon;
    hide Rpcs;
  }

  lemma DeletedListAlike(s: App, id: Id, h: Host)
    requires Agrees(h, s.tabs.agents)
    ensures var kept := Without(AgentsForSelectedTask(s.tabs), id);
            StubsAlike(kept, AgentsForSelectedTask(Step(s, Delete(id), h).tabs), ToSet(AgentIds(kept)))
  {
    hide Agrees;
    hide StubsAlike;
    hide LoadSelectedAgent;
    hide OfTask;
    hide Without;
    hide Framed;
    hide Quiet;
    hide Mon;
    hide Rpcs;
    var t := s.tabs.(agents := Without(s.tabs.agents, id));
    if t.selectedTask.Some? {
      var task := t.selectedTask.value;
      WithoutCommutes(s.tabs.agents, id, task);
      AlikeItself(OfTask(t.agents, task), IdsOfTask(t.agents, task));
      var s1 := s.(tabs := t, inbox := WithoutMentions(s.inbox, id));
      var t1 := t.(selectedAgent := FirstId(AgentsForSelectedTask(t)));
      LoadAlike(s1.(tabs := Remember(t1)), h, id, s.tabs.agents, task);
    } else {
      NothingWithout(id);
      AlikeItself([], {});
    }
  }

  lemma NothingWithout(id: Id)
    ensures Without([], id) == [] && ToSet(AgentIds([])) == {}
  {
  }

  /** A deletion step hides no other agent: every agent the tree showed is still shown, each with
      its subtree less the deleted branch; the deleted agent's children become roots with their
      subtrees as they were; and the tree stays complete if it was. The host has not heard of the
      deletion, so the reload may bring a pointer to the deleted agent back; it does not matter. */
  lemma DeleteStepHidesNobody(s: App, id: Id, h: Host, f: seq<Node>, g: seq<Node>)
    requires Distinct(AgentIds(TabBar(s))) && Agrees(h, s.tabs.agents)
    requires IsForestOf(Entries(TabBar(s)), f)
    requires IsForestOf(Entries(TabBar(Step(s, Delete(id), h))), g)
    ensures forall n :: Within(f, n) && n.id != id ==> Within(g, Prune(n, id))
    ensures forall n, c :: Within(f, n) && n.id == id && c in n.children ==> c in g
    ensures forall n :: Within(g, n) ==> n.id != id
    ensures Acyclic(Entries(TabBar(s))) ==> Acyclic(Entries(TabBar(Step(s, Delete(id), h))))
  {
    hide Step;
    hide TabBar;
    hide IsForestOf;
    hide Acyclic;
    hide Agrees;
    hide Alike;
    DeletionEntries(s, id, h);
    DanglingPointersDoNotMatter(Entries(Without(TabBar(s), id)), Entries(TabBar(Step(s, Delete(id), h))), g);
    DeletionHidesNobody(TabBar(s), id, f, g);
  }

  // ------------------------------------------------------------ the inbox

  /** The announcements a deletion reads: none unless the deleted agent was selected, another
      takes its place and the host answers with that one's transcript. */
  function ReadAfterDelete(s: App, id: Id, h: Host): seq<InboxItem> {
    var t := s.tabs.(agents := Without(s.tabs.agents, id));
    var next := FirstId(AgentsForSelectedTask(t));
    if s.tabs.selectedAgent != Some(id) || next.None? || s.conn.session.None? || h.context(next.value).None? then []
    else Announced(next.value, h.context(next.value).value)
  }

  lemma {:induction false} AnnouncedTo(toAgentId: Id, messages: seq<ChatMessage>)
    ensures forall m :: m in Announced(toAgentId, messages) ==> m.toAgentId == toAgentId
  {
    hide ParseA2aPrefix;
    if messages != [] { AnnouncedTo(toAgentId, messages[..|messages| - 1]); }
  }

  lemma {:induction false} WithoutLosesId(agents: seq<AgentStub>, id: Id)
    ensures forall a :: a in Without(agents, id) ==> a.id != id
  {
    if agents != [] { WithoutLosesId(agents[..|agents| - 1], id); }
  }

  /** The first agent of the selected task is the one shown once it is selected. */
  lemma FirstIsShown(t: Tabs)
    requires AgentsForSelectedTask(t) != [] && t.selectedAgent == FirstId(AgentsForSelectedTask(t))
    ensures SelectedAgent(t) == Some(AgentsForSelectedTask(t)[0])
  {
  }

  lemma DeletionInbox(s: App, id: Id, h: Host)
    ensures Step(s, Delete(id), h).inbox == MergeAll(WithoutMentions(s.inbox, id), ReadAfterDelete(s, id, h))
  {
    hide SelectedAgent;
    hide AgentsForSelectedTask;
    hide Without;
    hide WithoutMentions;
    hide Announced;
    hide Framed;
    hide Stays;
    hide Mon;
    hide Rpcs;
    var t := s.tabs.(agents := Without(s.tabs.agents, id));
    var t1 := t.(selectedAgent := FirstId(AgentsForSelectedTask(t)));
    if AgentsForSelectedTask(t) != [] {
      SameAgents(t, t1);
      SameAgents(t, Remember(t1));
      FirstIsShown(Remember(t1));
    }
  }

  lemma SameAgents(t: Tabs, r: Tabs)
    requires r.agents == t.agents && r.selectedTask == t.selectedTask
    ensures AgentsForSelectedTask(r) == AgentsForSelectedTask(t)
  {
  }

  predicate Mentions(m: InboxItem, id: Id) {
    m.toAgentId == id || m.fromAgentId == id
  }

  lemma {:induction false} KeptDoNotMention(inbox: seq<InboxItem>, id: Id)
    ensures forall m :: m in WithoutMentions(inbox, id) <==> m in inbox && !Mentions(m, id)
  {
    forall m ensures m in WithoutMentions(inbox, id) <==> m in inbox && !Mentions(m, id) {
      WhereMembers(inbox, (x: InboxItem) => x.toAgentId != id && x.fromAgentId != id, m);
    }
  }

  /** After a deletion the inbox mentions the deleted agent again exactly when the transcript
      that is then read announces a message from it that is news to the inbox. In particular it
      does not when no transcript is read. */
  lemma DeletedIsMentionedIff(s: App, id: Id, h: Host)
    ensures var kept, read := WithoutMentions(s.inbox, id), ReadAfterDelete(s, id, h);
            (exists m :: m in Step(s, Delete(id), h).inbox && Mentions(m, id)) <==>
            (exists k :: 0 <= k < |read| && IsNews(kept, read, k) && read[k].fromAgentId == id)
  {
    hide Step;
    hide Without;
    hide IsNews;
    var kept, read := WithoutMentions(s.inbox, id), ReadAfterDelete(s, id, h);
    DeletionInbox(s, id, h);
    KeptDoNotMention(s.inbox, id);
    MergeAllAddsNews(kept, read);
    ReadGoesElsewhere(s, id, h);
    var after := Step(s, Delete(id), h).inbox;
    if m :| m in after && Mentions(m, id) {
      var k :| 0 <= k < |read| && IsNews(kept, read, k) && read[k] == m;
      assert read[k] in read;
    }
    if k :| 0 <= k < |read| && IsNews(kept, read, k) && read[k].fromAgentId == id {
      assert read[k] in after && Mentions(read[k], id);
    }
  }

  lemma ReadGoesElsewhere(s: App, id: Id, h: Host)
    ensures forall m :: m in ReadAfterDelete(s, id, h) ==> m.toAgentId != id
  {
    var t := s.tabs.(agents := Without(s.tabs.agents, id));
    var shown := AgentsForSelectedTask(t);
    if shown != [] {
      WithoutLosesId(s.tabs.agents, id);
      WhereMembers(t.agents, (a: AgentStub) => a.taskId == t.selectedTask.value, shown[0]);
      if h.context(shown[0].id).Some? { AnnouncedTo(shown[0].id, h.context(shown[0].id).value); }
    }
  }

  /** A run against an honest host after which the deleted agent is mentioned again: two agents
      are listed, the first is deleted, and the transcript of the second announces a message the
      first once sent it. */
  lemma DeletedCanBeMentionedAgain() returns (events: seq<(Event, Host)>, h: Host)
    ensures var s := Run(Initial, events);
            && s.inbox == []
            && exists m :: m in Step(s, Delete("a"), h).inbox && Mentions(m, "a")
  {
    hide Step;
    hide RemoveAgent;
    var a, b := AgentStub("a", "t", None, "p", Idle, "chat"), AgentStub("b", "t", None, "p", Idle, "chat");
    var session := Session("tok", None, false, false, false, false, false, false, true, false, false);
    var said := [ChatMessage("m", "system", PrintA2a("a", "hi"))];
    h := Host(true, Some(session), true, None, _ => Some([a, b]), _ => None, id => Some(if id == "b" then said else []),
              None, None, Err(()), None, None, None, None, _ => None, _ => None, None, true, false);
    events := [(Discover, h), (Open("t"), h)];
    TwoSteps(events);
    FirstContact(h, session);
    var s0 := Step(Initial, Discover, h);
    OpensWithTwo(s0, h, a, b);
    var s := Step(s0, Open("t"), h);
    WitnessReads(s, h, a, b);
    DeletedIsMentionedIff(s, "a", h);
    WitnessIsNews();
    assert ReadAfterDelete(s, "a", h)[0].fromAgentId == "a";
    assert WithoutMentions(s.inbox, "a") == [];
  }

  lemma WitnessIsNews()
    ensures IsNews([], [InboxItem("a", "b", "m", "hi")], 0)
  {
  }

  lemma FirstContact(h: Host, session: Session)
    requires h.pidFile && h.connect == Some(session) && h.workspaces == None
    ensures var r := Step(Initial, Discover, h);
            r.conn.session == Some(session) && r.tabs == Initial.tabs && r.inbox == []
  {
    hide Mon;
    hide Rpcs;
    hide ReloadCanvas;
    hide WsUrl;
    hide Quiet;
  }

  lemma OpensWithTwo(s: App, h: Host, a: AgentStub, b: AgentStub)
    requires s.conn.session.Some? && s.tabs == Initial.tabs && s.inbox == []
    requires a.id == "a" && b.id == "b" && a.taskId == b.taskId == "t"
    requires h.agents("t") == Some([a, b]) && h.agent("a") == None && h.context("a") == Some([])
    ensures var r := Step(s, Open("t"), h);
            && r.conn == s.conn && r.inbox == [] && r.tabs.agents == [a, b]
            && r.tabs.selectedTask == Some("t") && r.tabs.selectedAgent == Some("a")
  {
    hide Mon;
    hide Rpcs;
    hide Quiet;
    hide CanvasFrame;
    hide ReloadCanvas;
    TabsStepIs(s, Open("t"), h);
    CanvasWithTwo(s.(tabs := Opened(s.tabs, "t")), h, a, b);
  }

  lemma CanvasWithTwo(s: App, h: Host, a: AgentStub, b: AgentStub)
    requires s.conn.session.Some? && s.tabs.agents == [] && s.inbox == []
    requires s.tabs.selectedTask == Some("t") && s.tabs.selectedAgent == None
    requires a.id == "a" && b.id == "b" && a.taskId == b.taskId == "t"
    requires h.agents("t") == Some([a, b]) && h.agent("a") == None && h.context("a") == Some([])
    ensures var r := ReloadCanvas(s, "t", h);
            && r.conn == s.conn && r.inbox == [] && r.tabs.agents == [a, b]
            && r.tabs.selectedTask == Some("t") && r.tabs.selectedAgent == Some("a")
  {
    hide Mon;
    hide Rpcs;
    hide Quiet;
    hide SelectedAgent;
    hide OfTask;
    hide NotOfTask;
    TwoOfTask(a, b);
    var s1 := ReloadAgents(s.(dirs := Dirs(map[], {})), "t", h);
    assert s1.tabs.agents == [a, b] && s1.tabs.selectedAgent == Some("a");
    assert AgentsForSelectedTask(s1.tabs) == [a, b];
    FirstIsShown(s1.tabs);
    NobodyAnnounces("a");
  }

  lemma TwoOfTask(a: AgentStub, b: AgentStub)
    requires a.taskId == b.taskId == "t"
    ensures NotOfTask([], "t") + [a, b] == [a, b] && OfTask([a, b], "t") == [a, b]
  {
    WhereAll([a, b], (x: AgentStub) => x.taskId == "t");
  }

  lemma NobodyAnnounces(id: Id)
    ensures MergeAll([], Announced(id, [])) == []
  {
  }

  lemma WitnessReads(s: App, h: Host, a: AgentStub, b: AgentStub)
    requires a.id == "a" && b.id == "b" && a.taskId == b.taskId == "t" && a.parentId == b.parentId == None
    requires s.tabs.agents == [a, b] && s.tabs.selectedTask == Some("t") && s.tabs.selectedAgent == Some("a")
    requires s.conn.session.Some? && h.context("b") == Some([ChatMessage("m", "system", PrintA2a("a", "hi"))])
    ensures ReadAfterDelete(s, "a", h) == [InboxItem("a", "b", "m", "hi")]
  {
    hide Announced;
    hide Without;
    WithoutFirst(a, b);
    WhereAll([b], (x: AgentStub) => x.taskId == "t");
    assert OfTask([b], "t") == [b];
    AnnouncedOne();
  }

  lemma WithoutFirst(a: AgentStub, b: AgentStub)
    requires a.id == "a" && b.id == "b" && b.parentId == None
    ensures Without([a, b], "a") == [b]
  {
    hide Without;
    NothingWithout("a");
    WithoutSnoc([], a, "a");
    WithoutSnoc([a], b, "a");
    assert [] + [a] == [a] && [a] + [b] == [a, b] && [] + [b] == [b];
  }

  lemma AnnouncedOne()
    ensures Announced("b", [ChatMessage("m", "system", PrintA2a("a", "hi"))]) == [InboxItem("a", "b", "m", "hi")]
  {
    ParseInvertsPrint("a", "hi");
    var m := ChatMessage("m", "system", PrintA2a("a", "hi"));
    assert A2A_PREFIX <= m.content;
    assert [m][..0] == [];
  }
}
