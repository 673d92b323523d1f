/** Agents as the client lists them, and their conversation tree (state.rs, a2a.rs). */
module Agents {
  import opened Basics
  import opened Forest
  import opened ForestFacts

  datatype AgentStatus = Idle | Running | Error

  datatype AgentStub = AgentStub(id: Id, taskId: Id, parentId: Option<Id>, provider: string,
                                 status: AgentStatus, iface: string)
  {
    predicate IsTerminal() { iface == "terminal" }
  }

  function AgentIds(agents: seq<AgentStub>): (r: seq<Id>)
    ensures |r| == |agents|
    ensures forall k :: 0 <= k < |agents| ==> r[k] == agents[k].id
  {
    seq(|agents|, k requires 0 <= k < |agents| => agents[k].id)
  }

  /** The entries the conversation tree is built over. */
  function Entries(agents: seq<AgentStub>): (r: seq<Item>)
    ensures |r| == |agents|
    ensures forall k :: 0 <= k < |agents| ==> r[k] == Item(agents[k].id, agents[k].parentId)
  {
    seq(|agents|, k requires 0 <= k < |agents| => Item(agents[k].id, agents[k].parentId))
  }

  method BuildAgentTree(agents: seq<AgentStub>) returns (forest: seq<Node>)
    requires Distinct(AgentIds(agents))
    ensures IsForestOf(Entries(agents), forest) && ShownInListOrder(Entries(agents), forest)
    ensures Ascend(Entries(agents), Tops(forest))
    ensures forall n :: Within(forest, n) ==> Ascend(Entries(agents), Tops(n.children))
  {
    assert Ids(Entries(agents)) == AgentIds(agents);
    forest := Build(Entries(agents));
  }

  /** An agent without its parent pointer if that pointer names id. */
  function Orphan(a: AgentStub, id: Id): AgentStub {
    if a.parentId == Some(id) then a.(parentId := None) else a
  }

  function Without(agents: seq<AgentStub>, id: Id): seq<AgentStub> {
    if agents == [] then []
    else Without(agents[..|agents| - 1], id) + if Last(agents).id == id then [] else [Orphan(Last(agents), id)]
  }

  /** The others stay in their order and as they are, but that pointers to id are cleared. */
  lemma {:induction false} WithoutInOrder(agents: seq<AgentStub>, id: Id) returns (at: seq<nat>)
    ensures Picks(agents, (a: AgentStub) => a.id != id, at) && |at| == |Without(agents, id)|
    ensures forall i :: 0 <= i < |at| ==>
              at[i] < |agents| && var a := agents[at[i]];
              Without(agents, id)[i] == if a.parentId == Some(id) then a.(parentId := None) else a
  {
    hide Picks;
    var keep := (a: AgentStub) => a.id != id;
    if agents == [] {
      at := [];
      PicksNothing(keep, at);
    } else {
      var n := |agents| - 1;
      var front := WithoutInOrder(agents[..n], id);
      at := if keep(agents[n]) then front + [n] else front;
      PicksSnoc(agents, keep, front);
    }
  }

  lemma {:induction false} WithoutEntries(agents: seq<AgentStub>, id: Id)
    ensures Entries(Without(agents, id)) == Remove(Entries(agents), id)
  {
    if agents != [] {
      var front := agents[..|agents| - 1];
      WithoutEntries(front, id);
      assert Entries(agents)[..|agents| - 1] == Entries(front);
      assert Last(Entries(agents)) == Item(Last(agents).id, Last(agents).parentId);
    }
  }

  /** Deleting an agent hides no other agent of the tree: each keeps its subtree but for the
      deleted branch, and the deleted agent's children become roots, subtrees untouched. */
  lemma DeletionHidesNobody(agents: seq<AgentStub>, id: Id, f: seq<Node>, g: seq<Node>)
    requires Distinct(AgentIds(agents))
    requires IsForestOf(Entries(agents), f) && IsForestOf(Entries(Without(agents, id)), g)
    ensures forall n :: Within(f, n) && n.id != id ==> Within(g, Prune(n, id))
    ensures forall n, c :: Within(f, n) && n.id == id && c in n.children ==> c in g
    ensures forall n :: Within(g, n) ==> n.id != id
    ensures Acyclic(Entries(agents)) ==> Acyclic(Entries(Without(agents, id)))
  {
    var entries := Entries(agents);
    assert Ids(entries) == AgentIds(agents);
    WithoutEntries(agents, id);
    forall n | Within(f, n) && n.id != id ensures Within(g, Prune(n, id)) {
      RemoveHidesNoSurvivor(entries, id, f, g, n);
    }
    forall n, c | Within(f, n) && n.id == id && c in n.children ensures c in g {
      RemovePromotesChildren(entries, id, f, g, n, c);
    }
    forall n | Within(g, n) ensures n.id != id {
      WithinIsShown(Remove(entries, id), g, n);
      ShownIffReachable(Remove(entries, id), g, n.id);
      var path :| RootChain(Remove(entries, id), path) && Last(path) == n.id;
      ChainListed(Remove(entries, id), path);
      RemoveIds(entries, id, n.id);
    }
    if Acyclic(entries) { RemoveKeepsAcyclic(entries, id); }
  }
}
