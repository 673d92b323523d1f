/** The draggable order of agent tabs (state.rs). Everything is said about ids; a stored
    order may be stale: it may name agents that are gone and miss agents that are new. */
module TabOrder {
  import opened Basics
  import opened Text

  /** Listed ids the stored order names, in that order, then the other listed ids. */
  function Ordered(order: seq<Id>, listed: seq<Id>): seq<Id> {
    Where(order, id => id in listed) + Where(listed, id => id !in order)
  }

  /** Takes the element at from out and puts it back in at to. */
  function Move(ids: seq<Id>, from: nat, to: nat): (r: seq<Id>)
    requires from < |ids| && to < |ids|
    ensures |r| == |ids| && r[to] == ids[from]
  {
    var rest := ids[..from] + ids[from + 1..];
    rest[..to] + [ids[from]] + rest[to..]
  }

  /** The stored order after a drop. Both ids are trimmed first; an unknown agent is
      appended; an unknown tile leaves the order alone. */
  function Drop(order: seq<Id>, listed: seq<Id>, agentId: Id, tileId: Id): seq<Id> {
    var agent, tile := Trim(agentId), Trim(tileId);
    if agent == "" || tile == "" || agent == tile then order
    else
      var shown := Ordered(order, listed);
      var ids := if agent in shown then shown else shown + [agent];
      if tile in ids then Move(ids, IndexOf(ids, agent), IndexOf(ids, tile)) else order
  }

  // ------------------------------------------------------------ what is displayed

  lemma OrderedIsPermutation(order: seq<Id>, listed: seq<Id>)
    requires Distinct(order) && Distinct(listed)
    ensures Distinct(Ordered(order, listed))
    ensures forall x :: x in Ordered(order, listed) <==> x in listed
    ensures multiset(Ordered(order, listed)) == multiset(listed)
  {
    var named := Where(order, id => id in listed);
    var rest := Where(listed, id => id !in order);
    WhereDistinct(order, id => id in listed);
    WhereDistinct(listed, id => id !in order);
    forall x ensures x in named <==> x in order && x in listed { WhereMembers(order, id => id in listed, x); }
    forall x ensures x in rest <==> x in listed && x !in order { WhereMembers(listed, id => id !in order, x); }
    DistinctConcat(named, rest);
    SameElementsArePermutation(Ordered(order, listed), listed);
  }

  /** Whatever repeats or is stale: first come the ids of the order that are listed, as the order has
      them, then the listed ids the order does not name, as the list has them. */
  lemma OrderedByPositions(order: seq<Id>, listed: seq<Id>) returns (named: seq<nat>, rest: seq<nat>)
    ensures Picks(order, id => id in listed, named) && Picks(listed, id => id !in order, rest)
    ensures |Ordered(order, listed)| == |named| + |rest|
    ensures forall i :: 0 <= i < |named| ==> Ordered(order, listed)[i] == order[named[i]]
    ensures forall i :: 0 <= i < |rest| ==> Ordered(order, listed)[|named| + i] == listed[rest[i]]
  {
    hide Picks;
    named := WherePicks(order, id => id in listed);
    rest := WherePicks(listed, id => id !in order);
    PicksInRange(order, id => id in listed, named);
    PicksInRange(listed, id => id !in order, rest);
  }

  /** x belongs before y in the tab bar: agents the order names come first, in that order; the others
      follow as they are listed. */
  predicate Precedes(order: seq<Id>, listed: seq<Id>, x: Id, y: Id)
    requires x in listed && y in listed
  {
    if x in order && y in order then IndexOf(order, x) < IndexOf(order, y)
    else if x in order || y in order then x in order
    else IndexOf(listed, x) < IndexOf(listed, y)
  }

  /** Of two shown ids the first is the one that belongs before the other. */
  lemma ShownBeforeIff(order: seq<Id>, listed: seq<Id>, i: nat, j: nat)
    requires Distinct(order) && Distinct(listed)
    requires i < |Ordered(order, listed)| && j < |Ordered(order, listed)|
    ensures var shown := Ordered(order, listed);
            shown[i] in listed && shown[j] in listed && (i < j <==> Precedes(order, listed, shown[i], shown[j]))
  {
    hide Ordered;
    var named, rest := OrderedByPositions(order, listed);
    var shown := Ordered(order, listed);
    ShownAt(order, listed, named, rest, i);
    ShownAt(order, listed, named, rest, j);
    if i == j {
    } else if i < j {
      PicksAscend(order, id => id in listed, named, i, j);
      PicksAscend(listed, id => id !in order, rest, i - |named|, j - |named|);
    } else {
      PicksAscend(order, id => id in listed, named, j, i);
      PicksAscend(listed, id => id !in order, rest, j - |named|, i - |named|);
    }
  }

  lemma PicksAscend(s: seq<Id>, keep: Id -> bool, at: seq<nat>, i: int, j: int)
    requires Picks(s, keep, at) && i < j
    ensures 0 <= i && j < |at| ==> at[i] < at[j]
  {
  }

  lemma ShownAt(order: seq<Id>, listed: seq<Id>, named: seq<nat>, rest: seq<nat>, i: nat)
    requires Distinct(order) && Distinct(listed) && i < |Ordered(order, listed)| == |named| + |rest|
    requires Picks(order, id => id in listed, named) && Picks(listed, id => id !in order, rest)
    requires forall k :: 0 <= k < |named| ==> Ordered(order, listed)[k] == order[named[k]]
    requires forall k :: 0 <= k < |rest| ==> Ordered(order, listed)[|named| + k] == listed[rest[k]]
    ensures var x := Ordered(order, listed)[i];
            && x in listed && (x in order <==> i < |named|)
            && if i < |named| then IndexOf(order, x) == named[i] else IndexOf(listed, x) == rest[i - |named|]
  {
    hide Ordered;
    hide IndexOf;
    if i < |named| {
      assert named[i] in named;
      IndexOfAt(order, named[i]);
    } else {
      var k := i - |named|;
      assert rest[k] in rest && Ordered(order, listed)[|named| + k] == listed[rest[k]];
      IndexOfAt(listed, rest[k]);
    }
  }

  /** The stored order of listed ids is what is shown, foreign ids aside. */
  lemma OrderedOfComplete(order: seq<Id>, listed: seq<Id>)
    requires forall x :: x in listed ==> x in order
    ensures Ordered(order, listed) == Where(order, id => id in listed)
  {
    WhereNone(listed, id => id !in order);
  }

  lemma MoveMembers(ids: seq<Id>, from: nat, to: nat)
    requires from < |ids| && to < |ids| && Distinct(ids)
    ensures Distinct(Move(ids, from, to))
    ensures forall x :: x in Move(ids, from, to) <==> x in ids
  {
    hide Move;
    var r := Move(ids, from, to);
    forall k | 0 <= k < |ids| ensures r[k] == ids[Source(from, to, k)] { MoveAt(ids, from, to, k); }
    forall i, j | 0 <= i < j < |r| ensures r[i] != r[j] {
      assert r[i] == ids[Source(from, to, i)] && r[j] == ids[Source(from, to, j)];
    }
    forall x ensures x in r <==> x in ids {
      if x in r { var k :| 0 <= k < |r| && r[k] == x; assert x == ids[Source(from, to, k)]; }
      if x in ids {
        var k :| 0 <= k < |ids| && ids[k] == x;
        var j := if k == from then to else if from < k <= to then k - 1 else if to <= k < from then k + 1 else k;
        assert Source(from, to, j) == k && r[j] == x;
      }
    }
  }

  /** Where the element at position k of a move came from. */
  function Source(from: nat, to: nat, k: nat): nat {
    if k == to then from
    else if from <= k < to then k + 1
    else if to < k <= from then k - 1
    else k
  }

  lemma WhereSkips<T>(before: seq<T>, x: T, after: seq<T>, keep: T -> bool)
    requires !keep(x)
    ensures Where(before + [x] + after, keep) == Where(before + after, keep)
  {
    WhereConcat(before, [x], keep);
    WhereConcat(before + [x], after, keep);
    WhereConcat(before, after, keep);
    assert Where([x], keep) == [];
  }

  /** The order of everyone but a. */
  function Others(ids: seq<Id>, a: Id): seq<Id> {
    Where(ids, x => x != a)
  }

  /** A move keeps the relative order of all the others. */
  lemma MoveKeepsOthers(ids: seq<Id>, from: nat, to: nat)
    requires from < |ids| && to < |ids|
    ensures Others(Move(ids, from, to), ids[from]) == Others(ids, ids[from])
  {
    var a := ids[from];
    var before, after := ids[..from], ids[from + 1..];
    var rest := before + after;
    var head, tail := rest[..to], rest[to..];
    assert ids == before + [a] + after;
    WhereSkips(before, a, after, x => x != a);
    assert rest == head + tail;
    WhereSkips(head, a, tail, x => x != a);
  }

  lemma MoveAt(ids: seq<Id>, from: nat, to: nat, k: nat)
    requires from < |ids| && to < |ids| && k < |ids|
    ensures Move(ids, from, to)[k] == ids[Source(from, to, k)]
  {
  }

  lemma MoveBack(ids: seq<Id>, from: nat, to: nat)
    requires from < |ids| && to < |ids|
    ensures Move(Move(ids, from, to), to, from) == ids
  {
    var r := Move(ids, from, to);
    var back := Move(r, to, from);
    assert |back| == |ids|;
    forall k | 0 <= k < |ids| ensures back[k] == ids[k] {
      MoveAt(r, to, from, k);
      MoveAt(ids, from, to, Source(to, from, k));
      assert Source(from, to, Source(to, from, k)) == k;
    }
  }

  /** A tab bar in use: ids as the host lists them, and a stored order. */
  ghost predicate Sound(order: seq<Id>, listed: seq<Id>) {
    Distinct(order) && Distinct(listed)
  }

  lemma IndexOfAt(ids: seq<Id>, k: nat)
    requires Distinct(ids) && k < |ids|
    ensures IndexOf(ids, ids[k]) == k
  {
  }

  /** For a list without repeats a drop keeps the stored order free of duplicates. */
  lemma DropKeepsSound(order: seq<Id>, listed: seq<Id>, agentId: Id, tileId: Id)
    requires Sound(order, listed)
    ensures Sound(Drop(order, listed, agentId, tileId), listed)
  {
    var agent, tile := Trim(agentId), Trim(tileId);
    OrderedIsPermutation(order, listed);
    var shown := Ordered(order, listed);
    var ids := if agent in shown then shown else shown + [agent];
    if agent !in shown { DistinctConcat(shown, [agent]); }
    if agent != "" && tile != "" && agent != tile && tile in ids {
      MoveMembers(ids, IndexOf(ids, agent), IndexOf(ids, tile));
    }
  }

  // ------------------------------------------------------------ lists that repeat an id

  /** The listed ids the stored order does not name, repeats included. */
  function Unnamed(order: seq<Id>, listed: seq<Id>): seq<Id> {
    Where(listed, id => id !in order)
  }

  lemma NamedIsDistinct(order: seq<Id>, listed: seq<Id>)
    requires Distinct(order)
    ensures Distinct(Where(order, id => id in listed))
    ensures forall x :: x in Where(order, id => id in listed) <==> x in order && x in listed
    ensures forall x :: x in Unnamed(order, listed) <==> x in listed && x !in order
  {
    WhereDistinct(order, id => id in listed);
    forall x ensures x in Where(order, id => id in listed) <==> x in order && x in listed {
      WhereMembers(order, id => id in listed, x);
    }
    forall x ensures x in Unnamed(order, listed) <==> x in listed && x !in order {
      WhereMembers(listed, id => id !in order, x);
    }
  }

  lemma DistinctPart<T>(s: seq<T>, t: seq<T>)
    requires Distinct(s + t)
    ensures Distinct(s) && Distinct(t)
  {
    forall i, j | 0 <= i < j < |s| ensures s[i] != s[j] { assert (s + t)[i] != (s + t)[j]; }
    forall i, j | 0 <= i < j < |t| ensures t[i] != t[j] { assert (s + t)[|s| + i] != (s + t)[|s| + j]; }
  }

  /** What is displayed has no repeats exactly when what the order does not name has none. */
  lemma OrderedDistinctIff(order: seq<Id>, listed: seq<Id>)
    requires Distinct(order)
    ensures Distinct(Ordered(order, listed)) <==> Distinct(Unnamed(order, listed))
  {
    var named, rest := Where(order, id => id in listed), Unnamed(order, listed);
    NamedIsDistinct(order, listed);
    assert Ordered(order, listed) == named + rest;
    if Distinct(rest) { DistinctConcat(named, rest); }
    if Distinct(named + rest) { DistinctPart(named, rest); }
  }

  lemma MoveDistinctIff(ids: seq<Id>, from: nat, to: nat)
    requires from < |ids| && to < |ids|
    ensures Distinct(Move(ids, from, to)) <==> Distinct(ids)
  {
    if Distinct(ids) { MoveMembers(ids, from, to); }
    if Distinct(Move(ids, from, to)) {
      MoveMembers(Move(ids, from, to), to, from);
      MoveBack(ids, from, to);
    }
  }

  /** Shown are exactly the listed ids, whatever the order and the list repeat. */
  lemma OrderedMembers(order: seq<Id>, listed: seq<Id>, x: Id)
    ensures x in Ordered(order, listed) <==> x in listed
  {
    WhereMembers(order, id => id in listed, x);
    WhereMembers(listed, id => id !in order, x);
  }

  /** What a drop ignores: a blank id, an agent dropped on itself, and a tile that is not listed. */
  predicate Ignored(listed: seq<Id>, agentId: Id, tileId: Id) {
    Trim(agentId) == "" || Trim(tileId) == "" || Trim(agentId) == Trim(tileId) || Trim(tileId) !in listed
  }

  lemma IgnoredDrop(order: seq<Id>, listed: seq<Id>, agentId: Id, tileId: Id)
    requires Ignored(listed, agentId, tileId)
    ensures Drop(order, listed, agentId, tileId) == order
  {
    hide Ordered;
    hide Move;
    hide Trim;
    hide IndexOf;
    OrderedMembers(order, listed, Trim(tileId));
  }

  /** A drop that is not ignored stores what is displayed, the agent taken out and put in. */
  lemma EffectiveDrop(order: seq<Id>, listed: seq<Id>, agentId: Id, tileId: Id)
    requires !Ignored(listed, agentId, tileId)
    ensures var agent, tile, shown := Trim(agentId), Trim(tileId), Ordered(order, listed);
            var ids := if agent in shown then shown else shown + [agent];
            && agent in ids && tile in ids
            && Drop(order, listed, agentId, tileId) == Move(ids, IndexOf(ids, agent), IndexOf(ids, tile))
  {
    hide Ordered;
    hide Move;
    hide Trim;
    hide IndexOf;
    OrderedMembers(order, listed, Trim(tileId));
  }

  /** Whatever the host lists, repeated ids included: a drop leaves no duplicate in the stored
      order exactly when it is ignored or the ids the order did not name were distinct. */
  lemma DropDistinctIff(order: seq<Id>, listed: seq<Id>, agentId: Id, tileId: Id)
    requires Distinct(order)
    ensures Distinct(Drop(order, listed, agentId, tileId))
            <==> Ignored(listed, agentId, tileId) || Distinct(Unnamed(order, listed))
  {
    hide Ordered;
    hide Move;
    hide Trim;
    hide IndexOf;
    hide Drop;
    if Ignored(listed, agentId, tileId) {
      IgnoredDrop(order, listed, agentId, tileId);
    } else {
      var agent, tile, shown := Trim(agentId), Trim(tileId), Ordered(order, listed);
      var ids := if agent in shown then shown else shown + [agent];
      OrderedDistinctIff(order, listed);
      if agent !in shown {
        if Distinct(shown) { DistinctConcat(shown, [agent]); }
        if Distinct(ids) { DistinctPart(shown, [agent]); }
      }
      EffectiveDrop(order, listed, agentId, tileId);
      MoveDistinctIff(ids, IndexOf(ids, agent), IndexOf(ids, tile));
    }
  }

  lemma NothingOrdered(listed: seq<Id>)
    ensures Ordered([], listed) == listed
  {
    WhereAll(listed, id => id !in []);
  }

  lemma PositionsInWitness()
    ensures IndexOf(["a", "a", "b"], "b") == 2 && IndexOf(["a", "a", "b"], "a") == 0
    ensures Move(["a", "a", "b"], 2, 0) == ["b", "a", "a"]
  {
    assert ["a", "a", "b"][..2] == ["a", "a"];
  }

  lemma TrimOfWitness()
    ensures Trim("a") == "a" && Trim("b") == "b"
  {
    hide Trim;
    TrimFixpoint("a");
    TrimFixpoint("b");
  }

  /** A host list that repeats an id puts a duplicate into the stored order. */
  lemma RepeatedIdIsStoredTwice()
    ensures Drop([], ["a", "a", "b"], "b", "a") == ["b", "a", "a"]
  {
    hide Ordered;
    hide Trim;
    hide Move;
    NothingOrdered(["a", "a", "b"]);
    TrimOfWitness();
    PositionsInWitness();
  }

  lemma {:induction false} CountWhere(s: seq<Id>, keep: Id -> bool, x: Id)
    ensures multiset(Where(s, keep))[x] == if keep(x) then multiset(s)[x] else 0
  {
    if s != [] {
      var front := s[..|s| - 1];
      CountWhere(front, keep, x);
      assert s == front + [Last(s)];
    }
  }

  /** The displayed order is a permutation of the list, repeats included, exactly when the order
      names no id the list repeats. */
  lemma OrderedIsPermutationIff(order: seq<Id>, listed: seq<Id>)
    requires Distinct(order)
    ensures multiset(Ordered(order, listed)) == multiset(listed)
            <==> forall x :: x in order ==> multiset(listed)[x] <= 1
  {
    var shown := Ordered(order, listed);
    forall x ensures multiset(shown)[x] == if x in order && x in listed then 1 else multiset(listed)[x] {
      CountWhere(order, id => id in listed, x);
      CountWhere(listed, id => id !in order, x);
      DistinctMultiset(order, x);
    }
    if multiset(shown) == multiset(listed) {
      forall x | x in order ensures multiset(listed)[x] <= 1 { assert multiset(shown)[x] <= 1; }
    }
    if forall x :: x in order ==> multiset(listed)[x] <= 1 {
      forall x ensures multiset(shown)[x] == multiset(listed)[x] {
        if x in order && x in listed { assert x in multiset(listed); }
      }
    }
  }

  /** Dropping one listed agent on another shows the dragged agent at the tile's place. */
  lemma DropMoves(order: seq<Id>, listed: seq<Id>, agentId: Id, tileId: Id)
    requires Sound(order, listed)
    requires Trim(agentId) in listed && Trim(tileId) in listed
    requires Trim(agentId) != "" && Trim(tileId) != "" && Trim(agentId) != Trim(tileId)
    ensures var shown := Ordered(order, listed);
            && Trim(agentId) in shown && Trim(tileId) in shown
            && Ordered(Drop(order, listed, agentId, tileId), listed)
               == Move(shown, IndexOf(shown, Trim(agentId)), IndexOf(shown, Trim(tileId)))
  {
    hide Move;
    hide Trim;
    hide IndexOf;
    var agent, tile := Trim(agentId), Trim(tileId);
    OrderedIsPermutation(order, listed);
    var shown := Ordered(order, listed);
    var moved := Move(shown, IndexOf(shown, agent), IndexOf(shown, tile));
    MoveMembers(shown, IndexOf(shown, agent), IndexOf(shown, tile));
    assert Drop(order, listed, agentId, tileId) == moved;
    OrderedOfComplete(moved, listed);
    WhereAll(moved, id => id in listed);
  }

  /** The three promises of a drop: the dragged agent takes the tile's former place, the
      others keep their order, and nobody appears or disappears. */
  lemma DropPlacesAndKeepsOthers(order: seq<Id>, listed: seq<Id>, agentId: Id, tileId: Id)
    requires Sound(order, listed)
    requires Trim(agentId) in listed && Trim(tileId) in listed
    requires Trim(agentId) != "" && Trim(tileId) != "" && Trim(agentId) != Trim(tileId)
    ensures var shown, after := Ordered(order, listed), Ordered(Drop(order, listed, agentId, tileId), listed);
            && |after| == |shown|
            && Trim(tileId) in shown
            && after[IndexOf(shown, Trim(tileId))] == Trim(agentId)
            && Others(after, Trim(agentId)) == Others(shown, Trim(agentId))
            && multiset(after) == multiset(listed)
  {
    OrderedIsPermutation(order, listed);
    DropMoves(order, listed, agentId, tileId);
    DropKeepsSound(order, listed, agentId, tileId);
    var shown := Ordered(order, listed);
    MoveKeepsOthers(shown, IndexOf(shown, Trim(agentId)), IndexOf(shown, Trim(tileId)));
    assert shown[IndexOf(shown, Trim(agentId))] == Trim(agentId);
    OrderedIsPermutation(Drop(order, listed, agentId, tileId), listed);
  }

  /** What a drop that is not ignored stores, agents not listed included: the displayed order with
      the dragged agent taken out and put at the place the tile had. */
  lemma DropStores(order: seq<Id>, listed: seq<Id>, agentId: Id, tileId: Id)
    requires Sound(order, listed) && !Ignored(listed, agentId, tileId)
    ensures var shown, stored := Ordered(order, listed), Drop(order, listed, agentId, tileId);
            && Trim(tileId) in shown && IndexOf(shown, Trim(tileId)) < |stored|
            && stored[IndexOf(shown, Trim(tileId))] == Trim(agentId)
            && Others(stored, Trim(agentId)) == Others(shown, Trim(agentId))
            && forall x :: x in stored <==> x in listed || x == Trim(agentId)
  {
    hide Ordered;
    hide Drop;
    hide Move;
    hide Trim;
    hide IndexOf;
    var agent, tile, shown := Trim(agentId), Trim(tileId), Ordered(order, listed);
    var ids := if agent in shown then shown else shown + [agent];
    OrderedIsPermutation(order, listed);
    EffectiveDrop(order, listed, agentId, tileId);
    if agent !in shown { DistinctConcat(shown, [agent]); }
    IndexInMore(shown, if agent in shown then [] else [agent], tile);
    assert shown + [] == shown;
    MoveMembers(ids, IndexOf(ids, agent), IndexOf(ids, tile));
    MoveKeepsOthers(ids, IndexOf(ids, agent), IndexOf(ids, tile));
    OthersOfMore(shown, agent);
  }

  lemma {:induction false} IndexInMore(ids: seq<Id>, more: seq<Id>, x: Id)
    requires x in ids
    ensures IndexOf(ids + more, x) == IndexOf(ids, x)
  {
    if ids[0] != x {
      assert (ids + more)[1..] == ids[1..] + more;
      IndexInMore(ids[1..], more, x);
    }
  }

  lemma OthersOfMore(shown: seq<Id>, agent: Id)
    ensures Others(shown + [agent], agent) == Others(shown, agent)
  {
    assert (shown + [agent])[..|shown|] == shown;
  }

  /** Moving an agent that is not listed among the listed ones is not seen. */
  lemma ForeignMove(shown: seq<Id>, listed: seq<Id>, agent: Id, to: nat)
    requires agent !in listed && to <= |shown|
    requires Distinct(shown) && forall x :: x in shown <==> x in listed
    ensures Ordered(Move(shown + [agent], |shown|, to), listed) == shown
  {
    var ids := shown + [agent];
    var moved := Move(ids, |shown|, to);
    DistinctConcat(shown, [agent]);
    MoveMembers(ids, |shown|, to);
    MoveKeepsOthers(ids, |shown|, to);
    OrderedOfComplete(moved, listed);
    WhereAgree(moved, id => id in listed, x => x != agent);
    assert Where(moved, id => id in listed) == Others(ids, agent);
    assert ids[..|ids| - 1] == shown;
    WhereAll(shown, x => x != agent);
  }

  /** Any other drop shows what was shown before. */
  lemma OtherDropsShowNothing(order: seq<Id>, listed: seq<Id>, agentId: Id, tileId: Id)
    requires Sound(order, listed)
    requires Trim(agentId) == Trim(tileId) || Trim(agentId) !in listed || Trim(tileId) !in listed
             || Trim(agentId) == "" || Trim(tileId) == ""
    ensures Ordered(Drop(order, listed, agentId, tileId), listed) == Ordered(order, listed)
  {
    var agent, tile := Trim(agentId), Trim(tileId);
    OrderedIsPermutation(order, listed);
    var shown := Ordered(order, listed);
    var next := Drop(order, listed, agentId, tileId);
    if next != order {
      IndexOfAt(shown + [agent], |shown|);
      ForeignMove(shown, listed, agent, IndexOf(shown + [agent], tile));
    }
  }

  /** An id no drop can name: it is empty, or trimming changes it. */
  predicate Undraggable(id: Id) {
    id == "" || !Trimmed(id)
  }

  /** One more drop takes the tab bar back to what it showed before this drop. */
  ghost predicate CanBeUndone(order: seq<Id>, listed: seq<Id>, agentId: Id, tileId: Id) {
    exists a, t :: Ordered(Drop(Drop(order, listed, agentId, tileId), listed, a, t), listed) == Ordered(order, listed)
  }

  /** The agent next to the dragged one, on the side it is dragged to. */
  function Neighbour(shown: seq<Id>, from: nat, to: nat): Id
    requires from < |shown| && to < |shown| && from != to
  {
    if from < to then shown[from + 1] else shown[from - 1]
  }

  /** Two moves that cancel out meet at the place the first one left. */
  lemma CancellingMoves(shown: seq<Id>, from: nat, to: nat, f: nat, g: nat)
    requires Distinct(shown) && from < |shown| && to < |shown| && f < |shown| && g < |shown| && from != to
    requires Move(Move(shown, from, to), f, g) == shown
    ensures Move(shown, from, to)[from] == Neighbour(shown, from, to) && (f == from || g == from)
  {
    hide Move;
    var moved := Move(shown, from, to);
    MoveMembers(shown, from, to);
    MoveAt(shown, from, to, from);
    var q := if from < to then from + 1 else from - 1;
    MoveAt(moved, f, g, q);
    assert moved[Source(f, g, q)] == shown[q] == moved[from];
    MoveAt(shown, from, to, g);
    forall k | 0 <= k < |moved| ensures moved[Source(f, g, k)] == shown[k] { MoveAt(moved, f, g, k); }
  }

  lemma EffectiveUndo(order: seq<Id>, listed: seq<Id>, agentId: Id, tileId: Id, a: Id, t: Id)
    requires Sound(order, listed)
    requires Trim(agentId) in listed && Trim(tileId) in listed
    requires Trim(agentId) != "" && Trim(tileId) != "" && Trim(agentId) != Trim(tileId)
    requires Ordered(Drop(Drop(order, listed, agentId, tileId), listed, a, t), listed) == Ordered(order, listed)
    ensures var shown := Ordered(order, listed);
            && Trim(agentId) in shown && Trim(tileId) in shown
            && !Undraggable(Neighbour(shown, IndexOf(shown, Trim(agentId)), IndexOf(shown, Trim(tileId))))
  {
    var shown, next := Ordered(order, listed), Drop(order, listed, agentId, tileId);
    OrderedIsPermutation(order, listed);
    DropMoves(order, listed, agentId, tileId);
    DropKeepsSound(order, listed, agentId, tileId);
    var from, to := IndexOf(shown, Trim(agentId)), IndexOf(shown, Trim(tileId));
    var moved := Move(shown, from, to);
    assert moved != shown by { assert moved[to] == shown[from] != shown[to]; }
    if Trim(a) == Trim(t) || Trim(a) !in listed || Trim(t) !in listed || Trim(a) == "" || Trim(t) == "" {
      OtherDropsShowNothing(next, listed, a, t);
    } else {
      DropMoves(next, listed, a, t);
      CancellingMoves(shown, from, to, IndexOf(moved, Trim(a)), IndexOf(moved, Trim(t)));
      TrimIsTrimmed(a);
      TrimIsTrimmed(t);
    }
  }

  lemma DropsBack(order: seq<Id>, listed: seq<Id>, agentId: Id, tileId: Id)
    requires Sound(order, listed)
    requires Trim(agentId) in listed && Trim(tileId) in listed
    requires Trim(agentId) != "" && Trim(tileId) != "" && Trim(agentId) != Trim(tileId)
    requires var shown := Ordered(order, listed);
             && Trim(agentId) in shown && Trim(tileId) in shown
             && !Undraggable(Neighbour(shown, IndexOf(shown, Trim(agentId)), IndexOf(shown, Trim(tileId))))
    ensures CanBeUndone(order, listed, agentId, tileId)
  {
    var agent, tile := Trim(agentId), Trim(tileId);
    var shown, next := Ordered(order, listed), Drop(order, listed, agentId, tileId);
    OrderedIsPermutation(order, listed);
    DropKeepsSound(order, listed, agentId, tileId);
    var from, to := IndexOf(shown, agent), IndexOf(shown, tile);
    DropMoves(order, listed, agentId, tileId);
    MoveMembers(shown, from, to);
    MoveAt(shown, from, to, from);
    var moved := Move(shown, from, to);
    var t := moved[from];
    assert t in listed;
    IndexOfAt(moved, from);
    IndexOfAt(moved, to);
    TrimFixpoint(agent);
    TrimIsTrimmed(agentId);
    TrimFixpoint(t);
    DropMoves(next, listed, agent, t);
    MoveBack(shown, from, to);
    assert Ordered(Drop(next, listed, agent, t), listed) == shown;
  }

  /** A drop that moves an agent can be undone by one more drop exactly when the dragged agent's
      neighbour on the side it moved to can be named by a drop. */
  lemma UndoIffNeighbourDraggable(order: seq<Id>, listed: seq<Id>, agentId: Id, tileId: Id)
    requires Sound(order, listed)
    requires Trim(agentId) in listed && Trim(tileId) in listed
    requires Trim(agentId) != "" && Trim(tileId) != "" && Trim(agentId) != Trim(tileId)
    ensures var shown := Ordered(order, listed);
            && Trim(agentId) in shown && Trim(tileId) in shown
            && (CanBeUndone(order, listed, agentId, tileId) <==>
                !Undraggable(Neighbour(shown, IndexOf(shown, Trim(agentId)), IndexOf(shown, Trim(tileId)))))
  {
    hide Ordered;
    hide Drop;
    hide Undraggable;
    OrderedIsPermutation(order, listed);
    var shown := Ordered(order, listed);
    if CanBeUndone(order, listed, agentId, tileId) {
      var a, t :| Ordered(Drop(Drop(order, listed, agentId, tileId), listed, a, t), listed) == shown;
      EffectiveUndo(order, listed, agentId, tileId, a, t);
    } else if !Undraggable(Neighbour(shown, IndexOf(shown, Trim(agentId)), IndexOf(shown, Trim(tileId)))) {
      DropsBack(order, listed, agentId, tileId);
    }
  }

  /** In particular one more drop undoes any drop among agents that can all be dragged. */
  lemma DropCanBeUndone(order: seq<Id>, listed: seq<Id>, agentId: Id, tileId: Id)
    requires Sound(order, listed) && forall x :: x in listed ==> !Undraggable(x)
    ensures CanBeUndone(order, listed, agentId, tileId)
  {
    hide Ordered;
    hide Drop;
    hide Trim;
    hide IndexOf;
    hide Undraggable;
    var agent, tile := Trim(agentId), Trim(tileId);
    var next := Drop(order, listed, agentId, tileId);
    DropKeepsSound(order, listed, agentId, tileId);
    OrderedIsPermutation(order, listed);
    if agent == tile || agent == "" || tile == "" || agent !in listed || tile !in listed {
      OtherDropsShowNothing(order, listed, agentId, tileId);
      OtherDropsShowNothing(next, listed, "", "");
      assert Ordered(Drop(next, listed, "", ""), listed) == Ordered(order, listed);
    } else {
      DropsBack(order, listed, agentId, tileId);
    }
  }

  // ------------------------------------------------------------ which orders are reachable

  function DropAll(order: seq<Id>, listed: seq<Id>, drops: seq<(Id, Id)>): seq<Id> {
    if drops == [] then order
    else
      var d := Last(drops);
      Drop(DropAll(order, listed, drops[..|drops| - 1]), listed, d.0, d.1)
  }

  lemma {:induction false} DropAllKeepsSound(order: seq<Id>, listed: seq<Id>, drops: seq<(Id, Id)>)
    requires Sound(order, listed)
    ensures Sound(DropAll(order, listed, drops), listed)
  {
    if drops != [] {
      DropAllKeepsSound(order, listed, drops[..|drops| - 1]);
      var d := Last(drops);
      DropKeepsSound(DropAll(order, listed, drops[..|drops| - 1]), listed, d.0, d.1);
    }
  }

  lemma OrderedLength(order: seq<Id>, listed: seq<Id>)
    requires Sound(order, listed)
    ensures |Ordered(order, listed)| == |listed|
  {
    OrderedIsPermutation(order, listed);
    assert |Ordered(order, listed)| == |multiset(Ordered(order, listed))| == |multiset(listed)|;
  }

  lemma MoveIntoPlace(shown: seq<Id>, target: seq<Id>, from: nat, k: nat)
    requires Distinct(target) && |shown| == |target| && from < |shown| && k < |shown|
    requires shown[..k] == target[..k] && shown[from] == target[k]
    ensures Move(shown, from, k)[..k + 1] == target[..k + 1]
  {
    assert forall i :: 0 <= i < k ==> shown[i] == shown[..k][i] == target[i];
    assert from >= k;
    forall i | 0 <= i < k ensures Move(shown, from, k)[i] == target[i] {
      MoveAt(shown, from, k, i);
      assert shown[..k][i] == target[..k][i];
    }
  }

  /** One more place of the target is reached by at most one drop. */
  lemma ArrangeStep(order: seq<Id>, listed: seq<Id>, target: seq<Id>, k: nat) returns (drop: (Id, Id))
    requires Sound(order, listed) && forall x :: x in listed ==> !Undraggable(x)
    requires IsPermutation(target, listed) && |target| == |listed| && k < |target|
    requires |Ordered(order, listed)| == |target| && Ordered(order, listed)[..k] == target[..k]
    ensures |Ordered(Drop(order, listed, drop.0, drop.1), listed)| == |target|
    ensures Ordered(Drop(order, listed, drop.0, drop.1), listed)[..k + 1] == target[..k + 1]
  {
    hide Ordered;
    hide Move;
    hide Trim;
    hide IndexOf;
    OrderedIsPermutation(order, listed);
    var shown := Ordered(order, listed);
    var agent, tile := target[k], shown[k];
    assert tile in shown && agent in target;
    assert target[..k + 1] == target[..k] + [agent];
    TrimFixpoint(agent);
    TrimFixpoint(tile);
    drop := (agent, tile);
    if agent == tile {
      assert shown[..k + 1] == shown[..k] + [tile];
    } else {
      DropMoves(order, listed, agent, tile);
      IndexOfAt(shown, k);
      MoveIntoPlace(shown, target, IndexOf(shown, agent), k);
    }
  }

  /** Selection sort by drops: the first k places already show the target. */
  lemma {:induction false} Arrange(order: seq<Id>, listed: seq<Id>, target: seq<Id>, k: nat)
    returns (drops: seq<(Id, Id)>)
    requires Sound(order, listed) && forall x :: x in listed ==> !Undraggable(x)
    requires IsPermutation(target, listed) && |target| == |listed| && k <= |target|
    ensures |Ordered(DropAll(order, listed, drops), listed)| == |target|
    ensures Ordered(DropAll(order, listed, drops), listed)[..k] == target[..k]
    decreases k
  {
    drops := [];
    OrderedLength(order, listed);
    if k > 0 {
      var fewer := Arrange(order, listed, target, k - 1);
      DropAllKeepsSound(order, listed, fewer);
      var d := ArrangeStep(DropAll(order, listed, fewer), listed, target, k - 1);
      drops := fewer + [d];
      assert drops[..|drops| - 1] == fewer;
    }
  }

  ghost predicate IsPermutation(target: seq<Id>, listed: seq<Id>) {
    Distinct(target) && forall x :: x in target <==> x in listed
  }

  ghost predicate CanShow(order: seq<Id>, listed: seq<Id>, target: seq<Id>) {
    exists drops :: Ordered(DropAll(order, listed, drops), listed) == target
  }

  lemma {:induction false} UndraggableHeadStays(order: seq<Id>, listed: seq<Id>, drops: seq<(Id, Id)>)
    requires Sound(order, listed) && listed != []
    requires Ordered(order, listed) != [] && Undraggable(Ordered(order, listed)[0])
    ensures var shown := Ordered(DropAll(order, listed, drops), listed);
            shown != [] && shown[0] == Ordered(order, listed)[0]
  {
    hide Ordered;
    hide Drop;
    hide Move;
    hide Trim;
    hide IndexOf;
    if drops != [] {
      UndraggableHeadStays(order, listed, drops[..|drops| - 1]);
      var reached := DropAll(order, listed, drops[..|drops| - 1]);
      var d := Last(drops);
      DropAllKeepsSound(order, listed, drops[..|drops| - 1]);
      OrderedIsPermutation(reached, listed);
      var shown := Ordered(reached, listed);
      var agent, tile := Trim(d.0), Trim(d.1);
      TrimIsTrimmed(d.0);
      TrimIsTrimmed(d.1);
      if agent == tile || agent == "" || tile == "" || agent !in listed || tile !in listed {
        OtherDropsShowNothing(reached, listed, d.0, d.1);
      } else {
        DropMoves(reached, listed, d.0, d.1);
        assert agent != shown[0] && tile != shown[0];
        var from, to := IndexOf(shown, agent), IndexOf(shown, tile);
        assert shown[from] == agent && shown[to] == tile;
        MoveAt(shown, from, to, 0);
      }
    }
  }

  lemma DraggableReachesAll(order: seq<Id>, listed: seq<Id>, target: seq<Id>)
    requires Sound(order, listed) && IsPermutation(target, listed)
    requires |listed| <= 1 || forall x :: x in listed ==> !Undraggable(x)
    ensures CanShow(order, listed, target)
  {
    SameElementsArePermutation(target, listed);
    assert |target| == |multiset(target)| == |multiset(listed)|;
    if |listed| <= 1 {
      OrderedIsPermutation(order, listed);
      OrderedLength(order, listed);
      if |listed| == 1 { assert target[0] in target && Ordered(order, listed)[0] in Ordered(order, listed); }
      assert DropAll(order, listed, []) == order;
    } else {
      var drops := Arrange(order, listed, target, |target|);
      assert target[..|target|] == target;
    }
  }

  lemma UndraggableBlocks(listed: seq<Id>, k: nat) returns (order: seq<Id>, target: seq<Id>)
    requires Distinct(listed) && 1 < |listed| && k < |listed| && Undraggable(listed[k])
    ensures Distinct(order) && IsPermutation(target, listed) && !CanShow(order, listed, target)
  {
    order := Move(listed, k, 0);
    MoveMembers(listed, k, 0);
    OrderedOfComplete(order, listed);
    WhereAll(order, id => id in listed);
    target := Move(order, 0, 1);
    MoveMembers(order, 0, 1);
    MoveAt(order, 0, 1, 0);
    forall drops ensures Ordered(DropAll(order, listed, drops), listed) != target {
      UndraggableHeadStays(order, listed, drops);
    }
  }

  /** Every order is reachable from every order exactly when every agent can be dragged
      (or there is only one). */
  lemma EveryOrderReachable(listed: seq<Id>)
    requires Distinct(listed)
    ensures (forall order, target ::
               Distinct(order) && IsPermutation(target, listed) ==> CanShow(order, listed, target))
            <==> |listed| <= 1 || forall x :: x in listed ==> !Undraggable(x)
  {
    if |listed| <= 1 || forall x :: x in listed ==> !Undraggable(x) {
      forall order, target | Distinct(order) && IsPermutation(target, listed) ensures CanShow(order, listed, target) {
        DraggableReachesAll(order, listed, target);
      }
    } else {
      var x :| x in listed && Undraggable(x);
      var order, target := UndraggableBlocks(listed, IndexOf(listed, x));
    }
  }
}
