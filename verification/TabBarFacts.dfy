/** The agents of the tab bar, over which the canvas builds the conversation tree: which they are,
    and what a deletion or a refresh does to them. */
module TabBarFacts {
  import opened Basics
  import opened Forest
  import opened ForestFacts
  import opened Agents
  import opened Traces
  import opened AppModel
  import TabOrder

  // ------------------------------------------------------------ looking agents up

  function Lookup(agents: seq<AgentStub>, id: Id): Option<AgentStub> {
    var k := Find(agents, id);
    if k < |agents| then Some(agents[k]) else None
  }

  lemma LookupSnoc(agents: seq<AgentStub>, a: AgentStub, id: Id)
    ensures Lookup(agents + [a], id)
            == if Lookup(agents, id).Some? then Lookup(agents, id) else if a.id == id then Some(a) else None
  {
    var more := agents + [a];
    var k, j := Find(agents, id), Find(more, id);
    forall i | 0 <= i < |agents| ensures more[i] == agents[i] {
    }
    assert more[|agents|] == a;
    if k < |agents| {
      assert more[k].id == id && j <= k;
      assert agents[j] == more[j];
    } else {
      assert j >= |agents|;
    }
  }

  lemma NothingFound(id: Id)
    ensures Lookup([], id) == None
  {
  }

  lemma WithoutSnoc(agents: seq<AgentStub>, a: AgentStub, id: Id)
    ensures Without(agents + [a], id)
            == if a.id == id then Without(agents, id) else Without(agents, id) + [Orphan(a, id)]
  {
    assert (agents + [a])[..|agents|] == agents;
  }

  /** The others are still found, and the deleted one is not. */
  lemma {:induction false} LookupWithout(agents: seq<AgentStub>, id: Id, x: Id)
    ensures Lookup(Without(agents, id), x)
            == if x != id && Lookup(agents, x).Some? then Some(Orphan(Lookup(agents, x).value, id)) else None
  {
    hide Lookup;
    if agents == [] {
      NothingFound(x);
    } else {
      var front, a := agents[..|agents| - 1], Last(agents);
      assert agents == front + [a];
      LookupWithout(front, id, x);
      LookupSnoc(front, a, x);
      WithoutSnoc(front, a, id);
      LookupSnoc(Without(front, id), Orphan(a, id), x);
    }
  }

  // ------------------------------------------------------------ what a deletion does

  lemma {:induction false} WithoutConcat(a: seq<AgentStub>, b: seq<AgentStub>, id: Id)
    ensures Without(a + b, id) == Without(a, id) + Without(b, id)
  {
    if b == [] {
      assert a + b == a;
    } else {
      var front, x := b[..|b| - 1], Last(b);
      assert b == front + [x] && a + b == (a + front) + [x];
      WithoutConcat(a, front, id);
      WithoutSnoc(a + front, x, id);
      WithoutSnoc(front, x, id);
    }
  }

  lemma {:induction false} WithoutWhere(agents: seq<AgentStub>, id: Id, keep: AgentStub -> bool)
    requires forall a :: keep(Orphan(a, id)) == keep(a)
    ensures Where(Without(agents, id), keep) == Without(Where(agents, keep), id)
  {
    hide Where;
    hide Without;
    if agents == [] {
      NothingKept(id, keep);
    } else {
      var front, a := agents[..|agents| - 1], Last(agents);
      assert agents == front + [a];
      WithoutWhere(front, id, keep);
      KeepSnoc(front, a, keep);
      KeepSnoc(Without(front, id), Orphan(a, id), keep);
      WithoutSnoc(front, a, id);
      WithoutSnoc(Where(front, keep), a, id);
    }
  }

  lemma NothingKept(id: Id, keep: AgentStub -> bool)
    ensures Where([], keep) == [] && Without([], id) == []
  {
  }

  lemma KeepSnoc(agents: seq<AgentStub>, a: AgentStub, keep: AgentStub -> bool)
    ensures Where(agents + [a], keep) == if keep(a) then Where(agents, keep) + [a] else Where(agents, keep)
  {
    assert (agents + [a])[..|agents|] == agents;
  }

  function Maybe(a: Option<AgentStub>): seq<AgentStub> {
    if a.Some? then [a.value] else []
  }

  lemma NamedStep(order: seq<Id>, listed: seq<AgentStub>)
    requires order != []
    ensures Named(order, listed) == Named(order[..|order| - 1], listed) + Maybe(Lookup(listed, Last(order)))
  {
  }

  lemma {:induction false} LookupIs(agents: seq<AgentStub>, id: Id)
    ensures Lookup(agents, id).Some? ==> Lookup(agents, id).value.id == id && Lookup(agents, id).value in agents
  {
  }

  lemma {:induction false} NamedWithout(order: seq<Id>, listed: seq<AgentStub>, id: Id)
    ensures Named(order, Without(listed, id)) == Without(Named(order, listed), id)
  {
    hide Lookup;
    hide Without;
    if order == [] {
      NothingKept(id, _ => true);
    } else {
      var front, x := order[..|order| - 1], Last(order);
      NamedWithout(front, listed, id);
      NamedStep(order, listed);
      NamedStep(order, Without(listed, id));
      LookupWithout(listed, id, x);
      LookupIs(listed, x);
      if Lookup(listed, x).Some? {
        WithoutSnoc(Named(front, listed), Lookup(listed, x).value, id);
      } else {
        assert Named(order, listed) == Named(front, listed);
      }
    }
  }

  /** Deleting an agent leaves the order of the others in the tab bar alone. */
  lemma OrderedWithout(order: seq<Id>, listed: seq<AgentStub>, id: Id)
    ensures OrderedAgents(order, Without(listed, id)) == Without(OrderedAgents(order, listed), id)
  {
    hide Named;
    hide Where;
    hide Without;
    NamedWithout(order, listed, id);
    WithoutWhere(listed, id, (a: AgentStub) => a.id !in order);
    WithoutConcat(Named(order, listed), Where(listed, (a: AgentStub) => a.id !in order), id);
  }

  // ------------------------------------------------------------ ids

  lemma IdsSnoc(agents: seq<AgentStub>, a: AgentStub)
    ensures AgentIds(agents + [a]) == AgentIds(agents) + [a.id]
  {
  }

  lemma {:induction false} NamedIds(order: seq<Id>, listed: seq<AgentStub>)
    ensures AgentIds(Named(order, listed)) == Where(order, x => x in AgentIds(listed))
  {
    if order != [] {
      var front, x := order[..|order| - 1], Last(order);
      NamedIds(front, listed);
      var k := Find(listed, x);
      if k < |listed| {
        assert AgentIds(listed)[k] == x;
        IdsSnoc(Named(front, listed), listed[k]);
      }
    }
  }

  lemma {:induction false} RestIds(listed: seq<AgentStub>, order: seq<Id>)
    ensures AgentIds(Where(listed, (a: AgentStub) => a.id !in order)) == Where(AgentIds(listed), x => x !in order)
  {
    if listed != [] {
      var front := listed[..|listed| - 1];
      RestIds(front, order);
      assert AgentIds(listed)[..|listed| - 1] == AgentIds(front);
    }
  }

  /** The ids of the tab bar are those TabOrder speaks of. */
  lemma OrderedIds(order: seq<Id>, listed: seq<AgentStub>)
    ensures AgentIds(OrderedAgents(order, listed)) == TabOrder.Ordered(order, AgentIds(listed))
  {
    hide Where;
    hide Named;
    NamedIds(order, listed);
    RestIds(listed, order);
    IdsConcat(Named(order, listed), Where(listed, (a: AgentStub) => a.id !in order));
  }

  lemma IdsConcat(a: seq<AgentStub>, b: seq<AgentStub>)
    ensures AgentIds(a + b) == AgentIds(a) + AgentIds(b)
  {
  }

  /** Every listed agent is in the tab bar and the other way round. */
  lemma OrderedMembers(order: seq<Id>, listed: seq<AgentStub>)
    ensures ToSet(AgentIds(OrderedAgents(order, listed))) == ToSet(AgentIds(listed))
  {
    hide OrderedAgents;
    OrderedIds(order, listed);
    var ids := AgentIds(listed);
    forall x ensures x in TabOrder.Ordered(order, ids) <==> x in ids {
      WhereMembers(order, x => x in ids, x);
      WhereMembers(ids, x => x !in order, x);
    }
  }

  // ------------------------------------------------------------ the order shown

  /** out is the tab bar: exactly the agents of the selected task, those the stored order names
      first and in that order, then the others as the client lists them. */
  ghost predicate ShowsInOrder(out: seq<AgentStub>, order: seq<Id>, t: Tabs) {
    && (forall a :: a in out <==> a in t.agents && t.selectedTask == Some(a.taskId))
    && (forall a :: a in out ==> a.id in AgentIds(t.agents))
    && forall i, j :: 0 <= i < |out| && 0 <= j < |out| ==>
         (i < j <==> TabOrder.Precedes(order, AgentIds(t.agents), out[i].id, out[j].id))
  }

  lemma TabBarInOrder(order: seq<Id>, t: Tabs)
    requires Distinct(order) && Distinct(AgentIds(t.agents))
    ensures ShowsInOrder(OrderedAgents(order, AgentsForSelectedTask(t)), order, t)
  {
    hide OrderedAgents;
    hide AgentsForSelectedTask;
    hide TabOrder.Precedes;
    var listed := AgentsForSelectedTask(t);
    var out := OrderedAgents(order, listed);
    TaskListed(t);
    OrderedAreListed(order, listed);
    OrderedMembers(order, listed);
    OrderedIds(order, listed);
    forall a | a in listed ensures a in out {
      assert a.id in ToSet(AgentIds(out));
      var k :| 0 <= k < |out| && AgentIds(out)[k] == a.id;
      SameIdSame(listed, out[k], a);
    }
    forall a | a in out ensures a.id in AgentIds(t.agents) { IdIsThere(t.agents, a); }
    forall i, j | 0 <= i < |out| && 0 <= j < |out|
      ensures i < j <==> TabOrder.Precedes(order, AgentIds(t.agents), out[i].id, out[j].id)
    {
      TabOrder.ShownBeforeIff(order, AgentIds(listed), i, j);
      assert out[i] in out && out[j] in out;
      PrecedesAmongAll(order, t, out[i], out[j]);
    }
  }

  lemma IdIsThere(agents: seq<AgentStub>, a: AgentStub)
    requires a in agents
    ensures a.id in AgentIds(agents)
  {
    var k :| 0 <= k < |agents| && agents[k] == a;
    assert AgentIds(agents)[k] == a.id;
  }

  lemma SameIdSame(agents: seq<AgentStub>, a: AgentStub, b: AgentStub)
    requires Distinct(AgentIds(agents)) && a in agents && b in agents && a.id == b.id
    ensures a == b
  {
    var i :| 0 <= i < |agents| && agents[i] == a;
    var j :| 0 <= j < |agents| && agents[j] == b;
    assert AgentIds(agents)[i] == AgentIds(agents)[j];
  }

  /** The agents of listed stand in agents, in the same order. */
  ghost predicate KeepsOrder(listed: seq<AgentStub>, agents: seq<AgentStub>) {
    && (forall i :: 0 <= i < |listed| ==> listed[i].id in AgentIds(agents))
    && forall i, j :: 0 <= i < j < |listed| ==>
         IndexOf(AgentIds(agents), listed[i].id) < IndexOf(AgentIds(agents), listed[j].id)
  }

  /** The agents of the selected task, in the order of the client's list. */
  lemma TaskListed(t: Tabs)
    requires Distinct(AgentIds(t.agents))
    ensures var listed := AgentsForSelectedTask(t);
            && Distinct(AgentIds(listed))
            && (forall a :: a in listed <==> a in t.agents && t.selectedTask == Some(a.taskId))
            && KeepsOrder(listed, t.agents)
  {
    var listed := AgentsForSelectedTask(t);
    if t.selectedTask.Some? {
      var keep := (a: AgentStub) => a.taskId == t.selectedTask.value;
      var at := WherePicks(t.agents, keep);
      forall a ensures a in listed <==> a in t.agents && t.selectedTask == Some(a.taskId) {
        WhereMembers(t.agents, keep, a);
      }
      forall i | 0 <= i < |listed|
        ensures listed[i].id in AgentIds(t.agents) && IndexOf(AgentIds(t.agents), listed[i].id) == at[i]
      {
        TabOrder.IndexOfAt(AgentIds(t.agents), at[i]);
      }
    }
  }

  lemma {:induction false} NamedAreListed(order: seq<Id>, listed: seq<AgentStub>)
    ensures forall a :: a in Named(order, listed) ==> a in listed
  {
    if order != [] { NamedAreListed(order[..|order| - 1], listed); }
  }

  lemma OrderedAreListed(order: seq<Id>, listed: seq<AgentStub>)
    ensures forall a :: a in OrderedAgents(order, listed) ==> a in listed
  {
    hide Named;
    NamedAreListed(order, listed);
    forall a | a in OrderedAgents(order, listed) ensures a in listed {
      WhereMembers(listed, (a: AgentStub) => a.id !in order, a);
    }
  }

  lemma PrecedesAmongAll(order: seq<Id>, t: Tabs, a: AgentStub, b: AgentStub)
    requires Distinct(AgentIds(t.agents)) && a in AgentsForSelectedTask(t) && b in AgentsForSelectedTask(t)
    ensures var ids, all := AgentIds(AgentsForSelectedTask(t)), AgentIds(t.agents);
            && a.id in ids && b.id in ids && a.id in all && b.id in all
            && (TabOrder.Precedes(order, ids, a.id, b.id) <==> TabOrder.Precedes(order, all, a.id, b.id))
  {
    hide AgentsForSelectedTask;
    hide AgentIds;
    hide IndexOf;
    hide KeepsOrder;
    TaskListed(t);
    var listed := AgentsForSelectedTask(t);
    IdIsThere(listed, a);
    IdIsThere(listed, b);
    IdIsThere(t.agents, a);
    IdIsThere(t.agents, b);
    SameOrder(listed, t.agents, a, b);
  }

  lemma SameOrder(listed: seq<AgentStub>, agents: seq<AgentStub>, a: AgentStub, b: AgentStub)
    requires Distinct(AgentIds(listed)) && KeepsOrder(listed, agents) && a in listed && b in listed
    ensures a.id in AgentIds(listed) && b.id in AgentIds(listed) && a.id in AgentIds(agents) && b.id in AgentIds(agents)
    ensures IndexOf(AgentIds(listed), a.id) < IndexOf(AgentIds(listed), b.id)
            <==> IndexOf(AgentIds(agents), a.id) < IndexOf(AgentIds(agents), b.id)
  {
    hide IndexOf;
    var i :| 0 <= i < |listed| && listed[i] == a;
    var j :| 0 <= j < |listed| && listed[j] == b;
    assert AgentIds(listed)[i] == a.id && AgentIds(listed)[j] == b.id;
    TabOrder.IndexOfAt(AgentIds(listed), i);
    TabOrder.IndexOfAt(AgentIds(listed), j);
  }

  // ------------------------------------------------------------ what a refresh does

  function Place(a: AgentStub): Item {
    Item(a.id, a.parentId)
  }

  /** The same agents, but that pointers to none of ids may differ. */
  ghost predicate StubsAlike(agents: seq<AgentStub>, others: seq<AgentStub>, ids: set<Id>) {
    |agents| == |others| && forall k :: 0 <= k < |agents| ==> SamePlace(Place(agents[k]), Place(others[k]), ids)
  }

  lemma FindAlike(agents: seq<AgentStub>, others: seq<AgentStub>, ids: set<Id>, x: Id)
    requires StubsAlike(agents, others, ids)
    ensures Find(agents, x) == Find(others, x)
  {
    var i, j := Find(agents, x), Find(others, x);
    if i < |agents| { assert SamePlace(Place(agents[i]), Place(others[i]), ids); }
    if j < |others| { assert SamePlace(Place(agents[j]), Place(others[j]), ids); }
  }

  lemma {:induction false} NamedAlike(order: seq<Id>, agents: seq<AgentStub>, others: seq<AgentStub>, ids: set<Id>)
    requires StubsAlike(agents, others, ids)
    ensures StubsAlike(Named(order, agents), Named(order, others), ids)
  {
    hide SamePlace;
    if order != [] {
      NamedAlike(order[..|order| - 1], agents, others, ids);
      FindAlike(agents, others, ids, Last(order));
    }
  }

  lemma {:induction false} WhereAlike(agents: seq<AgentStub>, others: seq<AgentStub>, ids: set<Id>,
                                       keep: AgentStub -> bool)
    requires StubsAlike(agents, others, ids)
    requires forall k :: 0 <= k < |agents| ==> keep(agents[k]) == keep(others[k])
    ensures StubsAlike(Where(agents, keep), Where(others, keep), ids)
  {
    hide SamePlace;
    if agents != [] {
      assert SamePlace(Place(Last(agents)), Place(Last(others)), ids);
      WhereAlike(agents[..|agents| - 1], others[..|others| - 1], ids, keep);
    }
  }

  lemma OrderedAlike(order: seq<Id>, agents: seq<AgentStub>, others: seq<AgentStub>, ids: set<Id>)
    requires StubsAlike(agents, others, ids)
    ensures StubsAlike(OrderedAgents(order, agents), OrderedAgents(order, others), ids)
  {
    NamedAlike(order, agents, others, ids);
    forall k | 0 <= k < |agents| ensures agents[k].id == others[k].id {
      assert SamePlace(Place(agents[k]), Place(others[k]), ids);
    }
    WhereAlike(agents, others, ids, (a: AgentStub) => a.id !in order);
  }

  lemma AlikeEntries(agents: seq<AgentStub>, others: seq<AgentStub>)
    requires StubsAlike(agents, others, ToSet(AgentIds(agents)))
    ensures Alike(Entries(agents), Entries(others))
  {
    assert Ids(Entries(agents)) == AgentIds(agents);
    forall k | 0 <= k < |agents| ensures SamePlace(Entries(agents)[k], Entries(others)[k], ToSet(AgentIds(agents))) {
      assert SamePlace(Place(agents[k]), Place(others[k]), ToSet(AgentIds(agents)));
    }
  }
}
