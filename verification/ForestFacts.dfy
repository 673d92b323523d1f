/** What a forest over a list shows: which ids, how often, in which order; when it
    exists at all; and what removing one entry does to it. */
module ForestFacts {
  import opened Basics
  import opened Forest

  // ------------------------------------------------------------ uniqueness

  lemma {:induction false} NodeIsUnique(items: seq<Item>, a: Node, b: Node)
    requires Mirrors(items, a) && Mirrors(items, b) && a.id == b.id
    ensures a == b
    decreases a
  {
    assert |a.children| == |Tops(a.children)| == |b.children|;
    forall k | 0 <= k < |a.children| ensures a.children[k] == b.children[k] {
      assert Tops(a.children)[k] == Tops(b.children)[k];
      NodeIsUnique(items, a.children[k], b.children[k]);
    }
  }

  /** The list determines its forest: order of roots, order of siblings and every edge. */
  lemma ForestIsUnique(items: seq<Item>, f: seq<Node>, g: seq<Node>)
    requires IsForestOf(items, f) && IsForestOf(items, g)
    ensures f == g
  {
    assert |f| == |Tops(f)| == |g|;
    forall k | 0 <= k < |f| ensures f[k] == g[k] {
      assert Tops(f)[k] == Tops(g)[k];
      NodeIsUnique(items, f[k], g[k]);
    }
  }

  // ------------------------------------------------- which ids the forest has

  lemma {:induction false} FlatAllMember(ns: seq<Node>, x: Id)
    ensures x in FlatAll(ns) <==> exists k :: 0 <= k < |ns| && x in Flat(ns[k])
  {
    if ns != [] {
      FlatAllMember(ns[1..], x);
      if exists k :: 0 <= k < |ns| && x in Flat(ns[k]) {
        var k :| 0 <= k < |ns| && x in Flat(ns[k]);
        if k > 0 { assert ns[1..][k - 1] == ns[k]; }
      }
    }
  }

  /** An id below n is at the end of a chain through n. */
  lemma {:induction false} ChainTo(items: seq<Item>, n: Node, path: seq<Id>, x: Id) returns (q: seq<Id>)
    requires Mirrors(items, n) && RootChain(items, path) && Last(path) == n.id && x in Flat(n)
    ensures RootChain(items, q) && Last(q) == x && path <= q
    decreases n
  {
    q := path;
    if x != n.id {
      FlatAllMember(n.children, x);
      var k :| 0 <= k < |n.children| && x in Flat(n.children[k]);
      var c := n.children[k];
      assert c.id == Tops(n.children)[k];
      KidsMembers(items, n.id, c.id);
      ExtendChain(items, path, c.id);
      q := ChainTo(items, c, path + [c.id], x);
      assert path <= path + [c.id];
    }
  }

  /** A mirrored node holds the listed children of every id it holds. */
  lemma {:induction false} FlatIsClosed(items: seq<Item>, n: Node, p: Id, c: Id)
    requires Mirrors(items, n) && p in Flat(n) && ParentLink(items, p, c)
    ensures c in Flat(n)
    decreases n
  {
    if p == n.id {
      KidsMembers(items, p, c);
      var k :| 0 <= k < |n.children| && Tops(n.children)[k] == c;
      assert c in Flat(n.children[k]);
      FlatAllMember(n.children, c);
    } else {
      FlatAllMember(n.children, p);
      var k :| 0 <= k < |n.children| && p in Flat(n.children[k]);
      FlatIsClosed(items, n.children[k], p, c);
      FlatAllMember(n.children, c);
    }
  }

  lemma {:induction false} ChainIsShown(items: seq<Item>, f: seq<Node>, path: seq<Id>)
    requires IsForestOf(items, f) && RootChain(items, path)
    ensures Last(path) in FlatAll(f)
    decreases |path|
  {
    FlatAllMember(f, Last(path));
    if |path| == 1 {
      RootsMembers(items, path[0]);
      var k :| 0 <= k < |f| && Tops(f)[k] == path[0];
      assert path[0] in Flat(f[k]);
    } else {
      var front := path[..|path| - 1];
      assert forall i :: 0 <= i < |front| - 1 ==> ParentLink(items, path[i], path[i + 1]);
      ChainIsShown(items, f, front);
      FlatAllMember(f, Last(front));
      var k :| 0 <= k < |f| && Last(front) in Flat(f[k]);
      assert ParentLink(items, path[|path| - 2], path[|path| - 2 + 1]);
      FlatIsClosed(items, f[k], Last(front), Last(path));
    }
  }

  /** The forest shows exactly the ids whose parent chain reaches a root. */
  lemma ShownIffReachable(items: seq<Item>, f: seq<Node>, x: Id)
    requires IsForestOf(items, f)
    ensures x in FlatAll(f) <==> Reachable(items, x)
  {
    if x in FlatAll(f) {
      FlatAllMember(f, x);
      var k :| 0 <= k < |f| && x in Flat(f[k]);
      assert Tops(f)[k] == f[k].id;
      RootsMembers(items, f[k].id);
      var q := ChainTo(items, f[k], [f[k].id], x);
    }
    if Reachable(items, x) {
      var path :| RootChain(items, path) && Last(path) == x;
      ChainIsShown(items, f, path);
    }
  }

  // ------------------------------------------------------------ how often

  /** ns hang side by side below path (path == [] for the roots). */
  ghost predicate HangBelow(items: seq<Item>, path: seq<Id>, ns: seq<Node>) {
    && Distinct(Tops(ns))
    && forall k :: 0 <= k < |ns| ==> Mirrors(items, ns[k]) && RootChain(items, path + [ns[k].id])
  }

  lemma {:induction false} FlatDistinct(items: seq<Item>, n: Node, path: seq<Id>)
    requires Distinct(Ids(items)) && Mirrors(items, n) && RootChain(items, path) && Last(path) == n.id
    ensures Distinct(Flat(n))
    decreases n, 0
  {
    IdsWhereDistinct(items, (it: Item) => it.parent == Some(n.id));
    forall k | 0 <= k < |n.children| ensures RootChain(items, path + [n.children[k].id]) {
      assert n.children[k].id == Tops(n.children)[k];
      KidsMembers(items, n.id, n.children[k].id);
      ExtendChain(items, path, n.children[k].id);
    }
    FlatAllDistinct(items, n.children, path);
    if n.id in FlatAll(n.children) {
      FlatAllMember(n.children, n.id);
      var k :| 0 <= k < |n.children| && n.id in Flat(n.children[k]);
      var q := ChainTo(items, n.children[k], path + [n.children[k].id], n.id);
      NoRepeatInChain(items, q, |path| - 1, |q| - 1);
      assert false;
    }
  }

  lemma {:induction false} FlatAllDistinct(items: seq<Item>, ns: seq<Node>, path: seq<Id>)
    requires Distinct(Ids(items)) && HangBelow(items, path, ns)
    ensures Distinct(FlatAll(ns))
    decreases ns, 1
  {
    if ns != [] {
      var rest := ns[1..];
      assert forall k :: 0 <= k < |rest| ==> rest[k] == ns[k + 1] && Tops(rest)[k] == Tops(ns)[k + 1];
      FlatDistinct(items, ns[0], path + [ns[0].id]);
      FlatAllDistinct(items, rest, path);
      forall x | x in Flat(ns[0]) ensures x !in FlatAll(rest) { InOneSubtree(items, ns, path, x); }
      DistinctConcat(Flat(ns[0]), FlatAll(rest));
    }
  }

  lemma InOneSubtree(items: seq<Item>, ns: seq<Node>, path: seq<Id>, x: Id)
    requires Distinct(Ids(items)) && HangBelow(items, path, ns)
    requires ns != [] && x in Flat(ns[0])
    ensures x !in FlatAll(ns[1..])
  {
    hide Flat;
    hide FlatAll;
    hide Mirrors;
    hide RootChain;
    var rest := ns[1..];
    if x in FlatAll(rest) {
      FlatAllMember(rest, x);
      var k :| 0 <= k < |rest| && x in Flat(rest[k]);
      assert rest[k] == ns[k + 1];
      var p := ChainTo(items, ns[0], path + [ns[0].id], x);
      var q := ChainTo(items, rest[k], path + [rest[k].id], x);
      assert p[|path|] == Tops(ns)[0] && q[|path|] == Tops(ns)[k + 1];
      OneChain(items, p, q);
      assert false;
    }
  }

  /** No id is shown twice. */
  lemma ShownOnce(items: seq<Item>, f: seq<Node>)
    requires Distinct(Ids(items)) && IsForestOf(items, f)
    ensures Distinct(FlatAll(f))
  {
    var ids := ToSet(Ids(items));
    IdsWhereDistinct(items, (it: Item) => TopLevel(it, ids));
    forall k | 0 <= k < |f| ensures RootChain(items, [] + [f[k].id]) {
      assert f[k].id == Tops(f)[k];
      RootsMembers(items, f[k].id);
    }
    FlatAllDistinct(items, f, []);
  }

  // ------------------------------------------------------------ cycles

  lemma {:induction false} CycleCutsOff(items: seq<Item>, c: seq<Id>, path: seq<Id>, k: nat)
    requires Distinct(Ids(items)) && IsCycle(items, c) && RootChain(items, path)
    requires k < |c| && Last(path) == c[k]
    ensures false
    decreases |path|
  {
    var i := if k == 0 then |c| - 1 else k;
    assert ParentLink(items, c[i - 1], c[i - 1 + 1]);
    var j := if i == 1 then |c| - 1 else i - 1;
    assert ParentLink(items, c[j - 1], c[j - 1 + 1]);
    LinkedIsListed(items, c[j - 1], c[j]);
    if |path| == 1 {
      RootHasNoListedParent(items, c[i - 1], c[i]);
    } else {
      assert ParentLink(items, path[|path| - 2], path[|path| - 2 + 1]);
      OneParent(items, c[i - 1], path[|path| - 2], c[i]);
      var front := path[..|path| - 1];
      assert forall i :: 0 <= i < |front| - 1 ==> ParentLink(items, path[i], path[i + 1]);
      CycleCutsOff(items, c, front, j);
    }
  }

  lemma ClosedCycle(items: seq<Item>, up: seq<Id>, p: Id) returns (c: seq<Id>)
    requires Linked(items, up) && p in up && ParentLink(items, p, up[0])
    ensures IsCycle(items, c)
  {
    var j :| 0 <= j < |up| && up[j] == p;
    c := [p] + up[..j + 1];
    forall i | 0 <= i < |c| - 1 ensures ParentLink(items, c[i], c[i + 1]) {
      if i > 0 { assert ParentLink(items, up[i - 1], up[i - 1 + 1]); }
    }
  }

  /** Climbing from a listed id ends at a root when there is no cycle. */
  lemma {:induction false} Climb(items: seq<Item>, up: seq<Id>)
    requires Acyclic(items)
    requires up != [] && Linked(items, up) && Distinct(up) && forall x :: x in up ==> x in Ids(items)
    ensures Reachable(items, Last(up))
    decreases |items| - |up|
  {
    Pigeonhole(up, Ids(items));
    assert up[0] in Ids(items);
    var k :| 0 <= k < |items| && Ids(items)[k] == up[0];
    if TopLevel(items[k], ToSet(Ids(items))) {
      assert RootChain(items, up);
    } else {
      var p := items[k].parent.value;
      assert ParentLink(items, p, up[0]);
      if p in up {
        var c := ClosedCycle(items, up, p);
        assert false;
      } else {
        var longer := [p] + up;
        forall i | 0 <= i < |longer| - 1 ensures ParentLink(items, longer[i], longer[i + 1]) {
          if i > 0 { assert ParentLink(items, up[i - 1], up[i - 1 + 1]); }
        }
        Pigeonhole(longer, Ids(items));
        Climb(items, longer);
      }
    }
  }

  lemma AcyclicIffAllReachable(items: seq<Item>)
    requires Distinct(Ids(items))
    ensures Acyclic(items) <==> forall x :: x in Ids(items) ==> Reachable(items, x)
  {
    if Acyclic(items) {
      forall x | x in Ids(items) ensures Reachable(items, x) { Climb(items, [x]); }
    } else {
      var c :| IsCycle(items, c);
      assert ParentLink(items, c[0], c[0 + 1]);
      LinkedIsListed(items, c[0], c[1]);
      if Reachable(items, c[1]) {
        var path :| RootChain(items, path) && Last(path) == c[1];
        CycleCutsOff(items, c, path, 1);
      }
    }
  }

  /** The forest is a permutation of the whole list exactly when the links are acyclic. */
  lemma PermutationIffAcyclic(items: seq<Item>, f: seq<Node>)
    requires Distinct(Ids(items)) && IsForestOf(items, f)
    ensures Acyclic(items) <==> multiset(FlatAll(f)) == multiset(Ids(items))
  {
    AcyclicIffAllReachable(items);
    ShownOnce(items, f);
    forall x ensures x in FlatAll(f) <==> Reachable(items, x) { ShownIffReachable(items, f, x); }
    forall x | x in FlatAll(f) ensures x in Ids(items) {
      var path :| RootChain(items, path) && Last(path) == x;
      ChainListed(items, path);
    }
    if Acyclic(items) {
      SameElementsArePermutation(FlatAll(f), Ids(items));
    }
    if multiset(FlatAll(f)) == multiset(Ids(items)) {
      forall x | x in Ids(items) ensures Reachable(items, x) {
        assert x in multiset(Ids(items));
      }
    }
  }

  // ------------------------------------------------- when the recursion ends

  function Size(n: Node): (s: nat)
    ensures s > 0
  {
    1 + SizeAll(n.children)
  }

  function SizeAll(ns: seq<Node>): nat {
    if ns == [] then 0 else Size(ns[0]) + SizeAll(ns[1..])
  }

  lemma {:induction false} ChildIsSmaller(ns: seq<Node>, k: nat)
    requires k < |ns|
    ensures Size(ns[k]) <= SizeAll(ns)
  {
    if k > 0 { ChildIsSmaller(ns[1..], k - 1); }
  }

  /** Follows a chain of links down a mirrored node. */
  lemma {:induction false} Descend(items: seq<Item>, n: Node, path: seq<Id>) returns (m: Node)
    requires Mirrors(items, n) && path != [] && path[0] == n.id && Linked(items, path)
    ensures Mirrors(items, m) && m.id == Last(path)
    ensures if |path| == 1 then m == n else Size(m) < Size(n)
    decreases |path|
  {
    m := n;
    if |path| > 1 {
      assert ParentLink(items, path[0], path[0 + 1]);
      KidsMembers(items, path[0], path[1]);
      var k :| 0 <= k < |n.children| && Tops(n.children)[k] == path[1];
      ChildIsSmaller(n.children, k);
      var rest := path[1..];
      forall i | 0 <= i < |rest| - 1 ensures ParentLink(items, rest[i], rest[i + 1]) {
        assert ParentLink(items, path[i + 1], path[i + 1 + 1]);
      }
      m := Descend(items, n.children[k], rest);
    }
  }

  /** The recursion has a finite result exactly when no chain from a root revisits an id.
      Distinct ids suffice (DistinctIdsNeverRevisit); a list with repeated ids may fail it. */
  lemma ForestExistsIffNoRevisit(items: seq<Item>)
    ensures (exists f :: IsForestOf(items, f)) <==> NoRevisit(items)
  {
    if NoRevisit(items) {
      var children := map p | p in Ids(items) :: Kids(items, p);
      forall r | r in Roots(items) ensures RootChain(items, [] + [r]) {
        RootsMembers(items, r);
      }
      assert Buckets(items, children);
      assert IsForestOf(items, WalkAll(Roots(items), children, items, []));
    }
    if f :| IsForestOf(items, f) {
      forall path | RootChain(items, path) ensures Distinct(path) {
        forall i, j | 0 <= i < j < |path| ensures path[i] != path[j] {
          NodesOnChainDiffer(items, f, path, i, j);
        }
      }
    }
  }

  lemma NodesOnChainDiffer(items: seq<Item>, f: seq<Node>, path: seq<Id>, i: nat, j: nat)
    requires IsForestOf(items, f) && RootChain(items, path) && i < j < |path|
    ensures path[i] != path[j]
  {
    RootsMembers(items, path[0]);
    var k :| 0 <= k < |f| && Tops(f)[k] == path[0];
    var head, tail := path[..i + 1], path[i..j + 1];
    assert forall t :: 0 <= t < |head| - 1 ==> ParentLink(items, path[t], path[t + 1]);
    forall t | 0 <= t < |tail| - 1 ensures ParentLink(items, tail[t], tail[t + 1]) {
      assert ParentLink(items, path[i + t], path[i + t + 1]);
    }
    var upper := Descend(items, f[k], head);
    var lower := Descend(items, upper, tail);
    if path[i] == path[j] { NodeIsUnique(items, upper, lower); }
  }

  /** Two entries with one id, a root and its own child: the recursion has no finite result. */
  lemma RepeatedIdCanBeEndless()
    ensures var items := [Item("a", None), Item("a", Some("a"))]; !exists f :: IsForestOf(items, f)
  {
    var items := [Item("a", None), Item("a", Some("a"))];
    assert items[0].id == "a" && TopLevel(items[0], ToSet(Ids(items)));
    assert items[1].id == "a" && items[1].parent == Some("a");
    assert RootChain(items, ["a", "a"]);
    assert ["a", "a"][0] == ["a", "a"][1];
    ForestExistsIffNoRevisit(items);
  }

  // ------------------------------------------------------------ removing one entry

  /** Drops the entry and clears the parent pointer of its children. */
  function Remove(items: seq<Item>, id: Id): seq<Item> {
    if items == [] then []
    else
      var last := Last(items);
      Remove(items[..|items| - 1], id)
        + if last.id == id then []
          else if last.parent == Some(id) then [last.(parent := None)]
          else [last]
  }

  /** n without the branches headed by id. */
  function Prune(n: Node, id: Id): Node {
    Node(n.id, PruneAll(n.children, id))
  }

  function PruneAll(ns: seq<Node>, id: Id): seq<Node> {
    if ns == [] then []
    else PruneAll(ns[..|ns| - 1], id) + if Last(ns).id == id then [] else [Prune(Last(ns), id)]
  }

  lemma {:induction false} RemoveMembers(items: seq<Item>, id: Id, it: Item)
    ensures it in Remove(items, id) <==>
            (|| (it in items && it.id != id && it.parent != Some(id))
             || (it.parent == None && it.id != id && Item(it.id, Some(id)) in items))
  {
    if items != [] {
      RemoveMembers(items[..|items| - 1], id, it);
      assert items == items[..|items| - 1] + [Last(items)];
    }
  }

  lemma RemoveIds(items: seq<Item>, id: Id, x: Id)
    ensures x in Ids(Remove(items, id)) <==> x in Ids(items) && x != id
  {
    var new' := Remove(items, id);
    if x in Ids(new') {
      var k :| 0 <= k < |new'| && Ids(new')[k] == x;
      RemoveMembers(items, id, new'[k]);
      var it :| it in items && it.id == x;
      var j :| 0 <= j < |items| && items[j] == it;
      assert Ids(items)[j] == x;
    }
    if x in Ids(items) && x != id {
      var k :| 0 <= k < |items| && Ids(items)[k] == x;
      var it := if items[k].parent == Some(id) then Item(x, None) else items[k];
      RemoveMembers(items, id, it);
      var j :| 0 <= j < |new'| && new'[j] == it;
      assert Ids(new')[j] == x;
    }
  }

  lemma {:induction false} RemoveDistinct(items: seq<Item>, id: Id)
    requires Distinct(Ids(items))
    ensures Distinct(Ids(Remove(items, id)))
  {
    if items != [] {
      var front := items[..|items| - 1];
      assert forall k :: 0 <= k < |front| ==> Ids(front)[k] == Ids(items)[k];
      RemoveDistinct(front, id);
      RemoveIds(front, id, Last(items).id);
      assert Last(items).id == Ids(items)[|items| - 1];
      assert Last(items).id !in Ids(front);
      var r := Remove(front, id);
      var r' := Remove(items, id);
      assert forall k :: 0 <= k < |r| ==> Ids(r')[k] == Ids(r)[k];
      assert forall k :: 0 <= k < |r| ==> Ids(r)[k] in Ids(r);
    }
  }

  /** Links of the survivors are kept, and none is new. */
  lemma RemoveLinks(items: seq<Item>, id: Id, p: Id, c: Id)
    ensures ParentLink(Remove(items, id), p, c) <==> ParentLink(items, p, c) && p != id && c != id
  {
    var new' := Remove(items, id);
    if ParentLink(new', p, c) {
      var k :| 0 <= k < |new'| && new'[k].id == c && new'[k].parent == Some(p);
      RemoveMembers(items, id, new'[k]);
      var j :| 0 <= j < |items| && items[j] == new'[k];
    }
    if ParentLink(items, p, c) && p != id && c != id {
      var k :| 0 <= k < |items| && items[k].id == c && items[k].parent == Some(p);
      RemoveMembers(items, id, items[k]);
      var j :| 0 <= j < |new'| && new'[j] == items[k];
    }
  }

  lemma RootItem(items: seq<Item>, it: Item)
    ensures it in items && TopLevel(it, ToSet(Ids(items))) ==> IsRoot(items, it.id)
  {
    if it in items && TopLevel(it, ToSet(Ids(items))) {
      var k :| 0 <= k < |items| && items[k] == it;
      assert items[k].id == it.id && TopLevel(items[k], ToSet(Ids(items)));
    }
  }

  /** The new roots are the old ones and the children of the removed entry. */
  lemma RemoveRoots(items: seq<Item>, id: Id, r: Id)
    requires Distinct(Ids(items))
    ensures IsRoot(Remove(items, id), r) <==> r != id && (IsRoot(items, r) || ParentLink(items, id, r))
  {
    var new' := Remove(items, id);
    forall x ensures x in Ids(new') <==> x in Ids(items) && x != id { RemoveIds(items, id, x); }
    if IsRoot(new', r) {
      var k :| 0 <= k < |new'| && new'[k].id == r && TopLevel(new'[k], ToSet(Ids(new')));
      RemoveMembers(items, id, new'[k]);
      RootItem(items, new'[k]);
      assert Ids(new')[k] == r;
      if Item(r, Some(id)) in items {
        var j :| 0 <= j < |items| && items[j] == Item(r, Some(id));
      }
    }
    if r != id && IsRoot(items, r) {
      var k :| 0 <= k < |items| && items[k].id == r && TopLevel(items[k], ToSet(Ids(items)));
      RemoveMembers(items, id, items[k]);
      RootItem(new', items[k]);
    }
    if r != id && ParentLink(items, id, r) {
      var k :| 0 <= k < |items| && items[k].id == r && items[k].parent == Some(id);
      RemoveMembers(items, id, Item(r, None));
      RootItem(new', Item(r, None));
    }
  }

  /** Removing an entry creates no cycle. */
  lemma RemoveKeepsAcyclic(items: seq<Item>, id: Id)
    requires Acyclic(items)
    ensures Acyclic(Remove(items, id))
  {
    forall c ensures !IsCycle(Remove(items, id), c) {
      if IsCycle(Remove(items, id), c) {
        forall i | 0 <= i < |c| - 1 ensures ParentLink(items, c[i], c[i + 1]) {
          assert ParentLink(Remove(items, id), c[i], c[i + 1]);
          RemoveLinks(items, id, c[i], c[i + 1]);
        }
        assert IsCycle(items, c);
      }
    }
  }

  lemma {:induction false} RemoveChain(items: seq<Item>, id: Id, path: seq<Id>)
    requires Distinct(Ids(items)) && RootChain(items, path) && Last(path) != id
    ensures Reachable(Remove(items, id), Last(path))
    decreases |path|
  {
    var new' := Remove(items, id);
    if id in path {
      var k :| 0 <= k < |path| && path[k] == id;
      assert ParentLink(items, path[k], path[k + 1]);
      var q := path[k + 1..];
      RemoveRoots(items, id, q[0]);
      if q[0] == id { NoRepeatInChain(items, path, k, k + 1); }
      forall i | 0 <= i < |q| - 1 ensures ParentLink(new', q[i], q[i + 1]) {
        assert ParentLink(items, path[k + 1 + i], path[k + 1 + i + 1]);
        NoRepeatInChain(items, path, k, k + 1 + i);
        NoRepeatInChain(items, path, k, k + 2 + i);
        RemoveLinks(items, id, q[i], q[i + 1]);
      }
      assert RootChain(new', q) && Last(q) == Last(path);
    } else {
      RemoveRoots(items, id, path[0]);
      forall i | 0 <= i < |path| - 1 ensures ParentLink(new', path[i], path[i + 1]) {
        assert ParentLink(items, path[i], path[i + 1]);
        RemoveLinks(items, id, path[i], path[i + 1]);
      }
      assert RootChain(new', path);
    }
  }

  lemma {:induction false} RemoveKids(items: seq<Item>, id: Id, ns: seq<Node>, p: Id)
    requires p != id && Tops(ns) == Kids(items, p)
    ensures Tops(PruneAll(ns, id)) == Kids(Remove(items, id), p)
    decreases |items|
  {
    var keep := (it: Item) => it.parent == Some(p);
    var new' := Remove(items, id);
    if items == [] {
      assert ns == [];
    } else {
      var front, last := items[..|items| - 1], Last(items);
      var frontKids := Remove(front, id);
      if last.parent == Some(p) {
        var ns' := ns[..|ns| - 1];
        assert Tops(ns)[..|ns| - 1] == IdsWhere(front, keep);
        assert Tops(ns') == Kids(front, p);
        RemoveKids(items[..|items| - 1], id, ns', p);
        assert Last(ns).id == Tops(ns)[|ns| - 1] == last.id;
        if last.id != id {
          assert new' == frontKids + [last];
          assert new'[..|new'| - 1] == frontKids;
          assert Kids(new', p) == Kids(frontKids, p) + [last.id];
          assert Tops(PruneAll(ns, id)) == Tops(PruneAll(ns', id)) + [last.id];
        } else {
          assert new' == frontKids;
          assert PruneAll(ns, id) == PruneAll(ns', id);
        }
      } else {
        RemoveKids(front, id, ns, p);
        if last.id != id {
          assert new'[..|new'| - 1] == frontKids;
          assert Kids(new', p) == Kids(frontKids, p);
        } else {
          assert new' == frontKids;
        }
      }
    }
  }

  lemma {:induction false} PruneAllMembers(ns: seq<Node>, id: Id, m: Node)
    requires m in PruneAll(ns, id)
    ensures exists k :: 0 <= k < |ns| && ns[k].id != id && m == Prune(ns[k], id)
  {
    var front := ns[..|ns| - 1];
    if m in PruneAll(front, id) {
      PruneAllMembers(front, id, m);
      var k :| 0 <= k < |front| && front[k].id != id && m == Prune(front[k], id);
      assert ns[k] == front[k];
    } else {
      assert ns[|ns| - 1].id != id;
    }
  }

  /** Below a survivor nothing changes but the loss of the removed branch. */
  lemma {:induction false} PruneMirrors(items: seq<Item>, id: Id, n: Node)
    requires Mirrors(items, n) && n.id != id
    ensures Mirrors(Remove(items, id), Prune(n, id))
    decreases n
  {
    RemoveKids(items, id, n.children, n.id);
    forall c | c in PruneAll(n.children, id) ensures Mirrors(Remove(items, id), c) {
      PruneAllMembers(n.children, id, c);
      var k :| 0 <= k < |n.children| && n.children[k].id != id && c == Prune(n.children[k], id);
      PruneMirrors(items, id, n.children[k]);
    }
  }

  lemma {:induction false} FindNode(items: seq<Item>, ns: seq<Node>, x: Id) returns (n: Node)
    requires (forall c :: c in ns ==> Mirrors(items, c)) && x in FlatAll(ns)
    ensures Within(ns, n) && n.id == x && Mirrors(items, n)
    decreases ns
  {
    FlatAllMember(ns, x);
    var k :| 0 <= k < |ns| && x in Flat(ns[k]);
    if ns[k].id == x {
      n := ns[k];
    } else {
      n := FindNode(items, ns[k].children, x);
      assert Within(ns[k].children, n);
    }
  }

  lemma {:induction false} WithinIsShown(items: seq<Item>, ns: seq<Node>, n: Node)
    requires (forall c :: c in ns ==> Mirrors(items, c)) && Within(ns, n)
    ensures n.id in FlatAll(ns) && Mirrors(items, n)
    decreases ns
  {
    var k :| 0 <= k < |ns| && (n == ns[k] || Within(ns[k].children, n));
    FlatAllMember(ns, n.id);
    if n == ns[k] {
      assert n.id in Flat(ns[k]);
    } else {
      WithinIsShown(items, ns[k].children, n);
      assert n.id in Flat(ns[k]);
    }
  }

  /** The forest has an edge from p to c. */
  ghost predicate Edge(ns: seq<Node>, p: Id, c: Id) {
    exists n :: Within(ns, n) && n.id == p && c in Tops(n.children)
  }

  /** The edges are the parent links of the list whose upper end is shown, and no others. */
  lemma EdgesAreShownLinks(items: seq<Item>, f: seq<Node>, p: Id, c: Id)
    requires IsForestOf(items, f)
    ensures Edge(f, p, c) <==> ParentLink(items, p, c) && p in FlatAll(f)
  {
    KidsMembers(items, p, c);
    if Edge(f, p, c) {
      var n :| Within(f, n) && n.id == p && c in Tops(n.children);
      WithinIsShown(items, f, n);
    }
    if ParentLink(items, p, c) && p in FlatAll(f) {
      var n := FindNode(items, f, p);
      assert c in Tops(n.children);
    }
  }

  /** Removing an entry hides no survivor: every node of the old forest other than the
      removed one is a node of the new forest, with the same subtree but for the removed
      branch. */
  lemma RemoveHidesNoSurvivor(items: seq<Item>, id: Id, f: seq<Node>, g: seq<Node>, n: Node)
    requires Distinct(Ids(items))
    requires IsForestOf(items, f) && IsForestOf(Remove(items, id), g)
    requires Within(f, n) && n.id != id
    ensures Within(g, Prune(n, id))
  {
    WithinIsShown(items, f, n);
    ShownIffReachable(items, f, n.id);
    var path :| RootChain(items, path) && Last(path) == n.id;
    RemoveChain(items, id, path);
    ShownIffReachable(Remove(items, id), g, n.id);
    var m := FindNode(Remove(items, id), g, n.id);
    PruneMirrors(items, id, n);
    NodeIsUnique(Remove(items, id), m, Prune(n, id));
  }

  lemma {:induction false} PruneIsIdentity(n: Node, id: Id)
    requires id !in Flat(n)
    ensures Prune(n, id) == n
    decreases n, 0
  {
    PruneAllIsIdentity(n.children, id);
  }

  lemma {:induction false} PruneAllIsIdentity(ns: seq<Node>, id: Id)
    requires id !in FlatAll(ns)
    ensures PruneAll(ns, id) == ns
    decreases ns, 1
  {
    hide FlatAll;
    if ns != [] {
      var front := ns[..|ns| - 1];
      FlatAllMember(ns, id);
      FlatAllMember(front, id);
      assert forall k :: 0 <= k < |front| ==> front[k] == ns[k];
      PruneAllIsIdentity(front, id);
      assert id !in Flat(ns[|ns| - 1]);
      PruneIsIdentity(Last(ns), id);
      assert ns == front + [Last(ns)];
    }
  }

  /** The children of the removed node become roots with their subtrees untouched. */
  lemma RemovePromotesChildren(items: seq<Item>, id: Id, f: seq<Node>, g: seq<Node>, n: Node, c: Node)
    requires Distinct(Ids(items)) && IsForestOf(items, f) && IsForestOf(Remove(items, id), g)
    requires Within(f, n) && n.id == id && c in n.children
    ensures c in g
  {
    hide Flat;
    hide FlatAll;
    hide Prune;
    hide Remove;
    hide Within;
    WithinIsShown(items, f, n);
    ShownIffReachable(items, f, id);
    var path :| RootChain(items, path) && Last(path) == id;
    ChainListed(items, path);
    var k :| 0 <= k < |n.children| && n.children[k] == c;
    assert c.id == Tops(n.children)[k];
    KidsMembers(items, id, c.id);
    ExtendChain(items, path, c.id);
    NoRepeatInChain(items, path + [c.id], |path| - 1, |path|);
    RemoveRoots(items, id, c.id);
    RootsMembers(Remove(items, id), c.id);
    var j :| 0 <= j < |g| && Tops(g)[j] == c.id;
    if id in Flat(c) {
      var q := ChainTo(items, c, path + [c.id], id);
      NoRepeatInChain(items, q, |path| - 1, |q| - 1);
      assert false;
    }
    PruneIsIdentity(c, id);
    PruneMirrors(items, id, c);
    NodeIsUnique(Remove(items, id), g[j], c);
  }

  // ------------------------------------------------------------ pointers that lead nowhere

  /** The same entry, but that a pointer to nothing listed may stand for another, or for none. */
  predicate SamePlace(a: Item, b: Item, ids: set<Id>) {
    a.id == b.id && (a.parent == b.parent || (TopLevel(a, ids) && TopLevel(b, ids)))
  }

  ghost predicate Alike(items: seq<Item>, others: seq<Item>) {
    |items| == |others| && forall k :: 0 <= k < |items| ==> SamePlace(items[k], others[k], ToSet(Ids(items)))
  }

  lemma AlikeIds(items: seq<Item>, others: seq<Item>)
    requires Alike(items, others)
    ensures Ids(items) == Ids(others) && Alike(others, items)
  {
    assert forall k :: 0 <= k < |items| ==> SamePlace(items[k], others[k], ToSet(Ids(items)));
    assert Ids(items) == Ids(others);
  }

  lemma {:induction false} SameIdsWhere(items: seq<Item>, others: seq<Item>, keep: Item -> bool)
    requires |items| == |others|
    requires forall k :: 0 <= k < |items| ==> items[k].id == others[k].id && keep(items[k]) == keep(others[k])
    ensures IdsWhere(items, keep) == IdsWhere(others, keep)
  {
    if items != [] { SameIdsWhere(items[..|items| - 1], others[..|others| - 1], keep); }
  }

  lemma AlikeKids(items: seq<Item>, others: seq<Item>, p: Id)
    requires Alike(items, others) && p in Ids(items)
    ensures Kids(items, p) == Kids(others, p)
  {
    SameIdsWhere(items, others, (it: Item) => it.parent == Some(p));
  }

  lemma AlikeRoots(items: seq<Item>, others: seq<Item>)
    requires Alike(items, others)
    ensures Roots(items) == Roots(others)
  {
    AlikeIds(items, others);
    var ids := ToSet(Ids(items));
    SameIdsWhere(items, others, (it: Item) => TopLevel(it, ids));
  }

  lemma {:induction false} AlikeMirrors(items: seq<Item>, others: seq<Item>, n: Node)
    requires Alike(items, others) && n.id in Ids(items) && Mirrors(items, n)
    ensures Mirrors(others, n)
    decreases n
  {
    AlikeKids(items, others, n.id);
    forall c | c in n.children ensures Mirrors(others, c) {
      var k :| 0 <= k < |n.children| && n.children[k] == c;
      assert Tops(n.children)[k] == c.id;
      KidsMembers(items, n.id, c.id);
      LinkedIsListed(items, n.id, c.id);
      AlikeMirrors(items, others, c);
    }
  }

  lemma AlikeForest(items: seq<Item>, others: seq<Item>, f: seq<Node>)
    requires Alike(items, others) && IsForestOf(items, f)
    ensures IsForestOf(others, f)
  {
    AlikeRoots(items, others);
    forall n | n in f ensures Mirrors(others, n) {
      var k :| 0 <= k < |f| && f[k] == n;
      assert Tops(f)[k] == n.id;
      RootsMembers(items, n.id);
      RootIsListed(items, n.id);
      AlikeMirrors(items, others, n);
    }
  }

  lemma AlikeAcyclic(items: seq<Item>, others: seq<Item>)
    requires Alike(items, others) && Acyclic(items)
    ensures Acyclic(others)
  {
    AlikeIds(items, others);
    forall c ensures !IsCycle(others, c) {
      if IsCycle(others, c) {
        forall i | 0 <= i < |c| - 1 ensures ParentLink(items, c[i], c[i + 1]) {
          var p := if i == 0 then |c| - 2 else i - 1;
          assert ParentLink(others, c[p], c[p + 1]) && c[p + 1] == c[i];
          LinkedIsListed(others, c[p], c[i]);
          KidsMembers(others, c[i], c[i + 1]);
          AlikeKids(items, others, c[i]);
          KidsMembers(items, c[i], c[i + 1]);
        }
        assert IsCycle(items, c);
      }
    }
  }

  /** Pointers to nothing listed do not matter: lists that differ in nothing else have the same
      forests, and the same cycles. */
  lemma DanglingPointersDoNotMatter(items: seq<Item>, others: seq<Item>, f: seq<Node>)
    requires Alike(items, others)
    ensures IsForestOf(items, f) <==> IsForestOf(others, f)
    ensures Acyclic(items) <==> Acyclic(others)
  {
    AlikeIds(items, others);
    if IsForestOf(items, f) { AlikeForest(items, others, f); }
    if IsForestOf(others, f) { AlikeForest(others, items, f); }
    if Acyclic(items) { AlikeAcyclic(items, others); }
    if Acyclic(others) { AlikeAcyclic(others, items); }
  }
}
