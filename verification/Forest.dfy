/** A flat list with optional parent pointers, nested into a forest: bucket the
    children by parent, then recurse from the roots. Parents may be missing and
    parent links may form cycles; nothing in the list forbids either. */
module Forest {
  import opened Basics

  datatype Item = Item(id: Id, parent: Option<Id>)

  datatype Node = Node(id: Id, children: seq<Node>)

  // ---------------------------------------------------------------- the list

  function Ids(items: seq<Item>): (r: seq<Id>)
    ensures |r| == |items|
    ensures forall k :: 0 <= k < |items| ==> r[k] == items[k].id
  {
    seq(|items|, k requires 0 <= k < |items| => items[k].id)
  }

  /** c is listed with parent p. */
  ghost predicate ParentLink(items: seq<Item>, p: Id, c: Id) {
    exists k :: 0 <= k < |items| && items[k].id == c && items[k].parent == Some(p)
  }

  predicate TopLevel(item: Item, ids: set<Id>) {
    item.parent.None? || item.parent.value !in ids
  }

  /** r is listed with no parent, or with one that is not listed. */
  ghost predicate IsRoot(items: seq<Item>, r: Id) {
    exists k :: 0 <= k < |items| && items[k].id == r && TopLevel(items[k], ToSet(Ids(items)))
  }

  /** The ids of the kept items, in list order. */
  function IdsWhere(items: seq<Item>, keep: Item -> bool): seq<Id> {
    if items == [] then []
    else IdsWhere(items[..|items| - 1], keep) + if keep(Last(items)) then [Last(items).id] else []
  }

  function Kids(items: seq<Item>, p: Id): seq<Id> {
    IdsWhere(items, (it: Item) => it.parent == Some(p))
  }

  function Roots(items: seq<Item>): seq<Id> {
    var ids := ToSet(Ids(items));
    IdsWhere(items, (it: Item) => TopLevel(it, ids))
  }

  lemma {:induction false} IdsWhereMembers(items: seq<Item>, keep: Item -> bool, x: Id)
    ensures x in IdsWhere(items, keep) <==> exists k :: 0 <= k < |items| && items[k].id == x && keep(items[k])
  {
    if items != [] {
      var front := items[..|items| - 1];
      IdsWhereMembers(front, keep, x);
      if keep(Last(items)) && Last(items).id == x {
        assert items[|items| - 1].id == x;
      }
      if x in IdsWhere(front, keep) {
        var k :| 0 <= k < |front| && front[k].id == x && keep(front[k]);
        assert items[k] == front[k];
      }
      if exists k :: 0 <= k < |items| && items[k].id == x && keep(items[k]) {
        var k :| 0 <= k < |items| && items[k].id == x && keep(items[k]);
        assert k < |front| ==> front[k] == items[k];
      }
    }
  }

  lemma {:induction false} IdsWhereDistinct(items: seq<Item>, keep: Item -> bool)
    requires Distinct(Ids(items))
    ensures Distinct(IdsWhere(items, keep))
  {
    if items != [] {
      var front := items[..|items| - 1];
      assert forall i, j :: 0 <= i < j < |front| ==> Ids(items)[i] != Ids(items)[j];
      assert Distinct(Ids(front));
      IdsWhereDistinct(front, keep);
      IdsWhereMembers(front, keep, Last(items).id);
      forall k | 0 <= k < |front| ensures front[k].id != Last(items).id {
        assert Ids(items)[k] != Ids(items)[|items| - 1];
      }
    }
  }

  lemma KidsMembers(items: seq<Item>, p: Id, c: Id)
    ensures c in Kids(items, p) <==> ParentLink(items, p, c)
  {
    IdsWhereMembers(items, (it: Item) => it.parent == Some(p), c);
  }

  lemma RootsMembers(items: seq<Item>, r: Id)
    ensures r in Roots(items) <==> IsRoot(items, r)
  {
    var ids := ToSet(Ids(items));
    IdsWhereMembers(items, (it: Item) => TopLevel(it, ids), r);
  }

  lemma LinkedIsListed(items: seq<Item>, p: Id, c: Id)
    requires ParentLink(items, p, c)
    ensures c in Ids(items)
  {
    var k :| 0 <= k < |items| && items[k].id == c && items[k].parent == Some(p);
    assert Ids(items)[k] == c;
  }

  lemma RootIsListed(items: seq<Item>, r: Id)
    requires IsRoot(items, r)
    ensures r in Ids(items)
  {
    var k :| 0 <= k < |items| && items[k].id == r && TopLevel(items[k], ToSet(Ids(items)));
    assert Ids(items)[k] == r;
  }

  // ------------------------------------------------------------ parent chains

  ghost predicate Linked(items: seq<Item>, path: seq<Id>) {
    forall i :: 0 <= i < |path| - 1 ==> ParentLink(items, path[i], path[i + 1])
  }

  /** The chain of parent links from a root down to the last id of path. */
  ghost predicate RootChain(items: seq<Item>, path: seq<Id>) {
    path != [] && IsRoot(items, path[0]) && Linked(items, path)
  }

  /** The parent chain of x reaches a root. */
  ghost predicate Reachable(items: seq<Item>, x: Id) {
    exists path :: RootChain(items, path) && Last(path) == x
  }

  /** No chain down from a root comes back to an id it already passed. */
  ghost predicate NoRevisit(items: seq<Item>) {
    forall path :: RootChain(items, path) ==> Distinct(path)
  }

  ghost predicate IsCycle(items: seq<Item>, c: seq<Id>) {
    |c| >= 2 && c[0] == Last(c) && Linked(items, c)
  }

  ghost predicate Acyclic(items: seq<Item>) {
    forall c :: !IsCycle(items, c)
  }

  lemma ChainListed(items: seq<Item>, path: seq<Id>)
    requires RootChain(items, path)
    ensures forall x :: x in path ==> x in Ids(items)
  {
    forall x | x in path ensures x in Ids(items) {
      var k :| 0 <= k < |path| && path[k] == x;
      if k == 0 { RootIsListed(items, x); } else {
        assert ParentLink(items, path[k - 1], path[k - 1 + 1]);
        LinkedIsListed(items, path[k - 1], x);
      }
    }
  }

  lemma ChainBound(items: seq<Item>, path: seq<Id>)
    requires NoRevisit(items) && RootChain(items, path)
    ensures |path| <= |items|
  {
    ChainListed(items, path);
    Pigeonhole(path, Ids(items));
  }

  lemma ExtendChain(items: seq<Item>, path: seq<Id>, c: Id)
    requires RootChain(items, path) && ParentLink(items, Last(path), c)
    ensures RootChain(items, path + [c])
  {
    var q := path + [c];
    forall i | 0 <= i < |q| - 1 ensures ParentLink(items, q[i], q[i + 1]) {
      if i < |path| - 1 { assert ParentLink(items, path[i], path[i + 1]); }
    }
  }

  /** With distinct ids every id has one parent pointer. */
  lemma OneParent(items: seq<Item>, p: Id, q: Id, c: Id)
    requires Distinct(Ids(items)) && ParentLink(items, p, c) && ParentLink(items, q, c)
    ensures p == q
  {
    var i :| 0 <= i < |items| && items[i].id == c && items[i].parent == Some(p);
    var j :| 0 <= j < |items| && items[j].id == c && items[j].parent == Some(q);
    assert Ids(items)[i] == Ids(items)[j];
  }

  lemma RootHasNoListedParent(items: seq<Item>, p: Id, c: Id)
    requires Distinct(Ids(items)) && IsRoot(items, c) && ParentLink(items, p, c)
    ensures p !in Ids(items)
  {
    var i :| 0 <= i < |items| && items[i].id == c && items[i].parent == Some(p);
    var j :| 0 <= j < |items| && items[j].id == c && TopLevel(items[j], ToSet(Ids(items)));
    assert Ids(items)[i] == Ids(items)[j];
  }

  lemma {:induction false} NoRepeatInChain(items: seq<Item>, path: seq<Id>, i: nat, j: nat)
    requires Distinct(Ids(items)) && RootChain(items, path) && i < j < |path|
    ensures path[i] != path[j]
  {
    assert ParentLink(items, path[j - 1], path[j - 1 + 1]);
    if path[i] == path[j] {
      if i == 0 {
        RootHasNoListedParent(items, path[j - 1], path[j]);
        ChainListed(items, path);
        assert false;
      } else {
        assert ParentLink(items, path[i - 1], path[i - 1 + 1]);
        OneParent(items, path[i - 1], path[j - 1], path[j]);
        NoRepeatInChain(items, path, i - 1, j - 1);
      }
    }
  }

  /** Distinct ids are enough for the recursion from the roots to end, cycles or not. */
  lemma DistinctIdsNeverRevisit(items: seq<Item>)
    requires Distinct(Ids(items))
    ensures NoRevisit(items)
  {
    forall path | RootChain(items, path) ensures Distinct(path) {
      forall i, j | 0 <= i < j < |path| ensures path[i] != path[j] {
        NoRepeatInChain(items, path, i, j);
      }
    }
  }

  lemma {:induction false} OneChain(items: seq<Item>, p: seq<Id>, q: seq<Id>)
    requires Distinct(Ids(items)) && RootChain(items, p) && RootChain(items, q) && Last(p) == Last(q)
    ensures p == q
    decreases |p|
  {
    ChainListed(items, p);
    ChainListed(items, q);
    if |p| > 1 { assert ParentLink(items, p[|p| - 2], p[|p| - 2 + 1]); }
    if |q| > 1 { assert ParentLink(items, q[|q| - 2], q[|q| - 2 + 1]); }
    if |p| == 1 && |q| > 1 {
      RootHasNoListedParent(items, q[|q| - 2], Last(q));
      assert false;
    } else if |p| > 1 && |q| == 1 {
      RootHasNoListedParent(items, p[|p| - 2], Last(p));
      assert false;
    } else if |p| > 1 {
      OneParent(items, p[|p| - 2], q[|q| - 2], Last(p));
      var p', q' := p[..|p| - 1], q[..|q| - 1];
      assert forall i :: 0 <= i < |p'| - 1 ==> ParentLink(items, p[i], p[i + 1]);
      assert forall i :: 0 <= i < |q'| - 1 ==> ParentLink(items, q[i], q[i + 1]);
      OneChain(items, p', q');
      assert p == p' + [Last(p)] && q == q' + [Last(q)];
    }
  }

  // --------------------------------------------------------------- the forest

  function Tops(ns: seq<Node>): (r: seq<Id>)
    ensures |r| == |ns|
    ensures forall k :: 0 <= k < |ns| ==> r[k] == ns[k].id
  {
    seq(|ns|, k requires 0 <= k < |ns| => ns[k].id)
  }

  /** At every node of n the children are exactly the listed children of its id, in list order. */
  ghost predicate Mirrors(items: seq<Item>, n: Node) {
    && Tops(n.children) == Kids(items, n.id)
    && forall c :: c in n.children ==> Mirrors(items, c)
  }

  /** A forest over the list: the listed roots in list order, each with the listed children. */
  ghost predicate IsForestOf(items: seq<Item>, f: seq<Node>) {
    && Tops(f) == Roots(items)
    && forall n :: n in f ==> Mirrors(items, n)
  }

  // ------------------------------------------------------------ list order

  /** n is one of the nodes of the forest, at any depth. */
  ghost predicate Within(ns: seq<Node>, n: Node) {
    exists k :: 0 <= k < |ns| && (n == ns[k] || Within(ns[k].children, n))
  }

  /** The entry hangs below parent, or with None it has no listed parent. */
  predicate HangsBelow(items: seq<Item>, item: Item, parent: Option<Id>) {
    if parent.Some? then item.parent == parent else item.parent.None? || item.parent.value !in Ids(items)
  }

  /** ids are those of exactly the entries that hang below parent, by increasing position. */
  ghost predicate InListOrder(items: seq<Item>, parent: Option<Id>, ids: seq<Id>) {
    exists at :: InOrderAt(items, parent, ids, at)
  }

  ghost predicate InOrderAt(items: seq<Item>, parent: Option<Id>, ids: seq<Id>, at: seq<nat>) {
    && Picks(items, item => HangsBelow(items, item, parent), at)
    && |ids| == |at| && forall i :: 0 <= i < |at| ==> ids[i] == items[at[i]].id
  }

  lemma {:induction false} IdsWhereIsWhere(items: seq<Item>, keep: Item -> bool)
    ensures IdsWhere(items, keep) == Ids(Where(items, keep))
  {
    if items != [] { IdsWhereIsWhere(items[..|items| - 1], keep); }
  }

  lemma ListOrderIs(items: seq<Item>, parent: Option<Id>, ids: seq<Id>)
    ensures InListOrder(items, parent, ids) <==>
            ids == if parent.Some? then Kids(items, parent.value) else Roots(items)
  {
    hide IdsWhere;
    var keep := item => HangsBelow(items, item, parent);
    var listed := if parent.Some? then Kids(items, parent.value) else Roots(items);
    ListedWhere(items, parent);
    if ids == listed {
      var at := WherePicks(items, keep);
      assert InOrderAt(items, parent, ids, at);
    }
    if at :| InOrderAt(items, parent, ids, at) {
      var picked := seq(|at|, i requires 0 <= i < |at| => items[at[i]]);
      PickedIsWhere(items, keep, at, picked);
      assert ids == Ids(picked);
    }
  }

  lemma ListedWhere(items: seq<Item>, parent: Option<Id>)
    ensures Ids(Where(items, item => HangsBelow(items, item, parent)))
            == if parent.Some? then Kids(items, parent.value) else Roots(items)
  {
    hide IdsWhere;
    var keep := item => HangsBelow(items, item, parent);
    if parent.Some? {
      WhereAgree(items, keep, (it: Item) => it.parent == Some(parent.value));
      IdsWhereIsWhere(items, (it: Item) => it.parent == Some(parent.value));
    } else {
      var ids := ToSet(Ids(items));
      WhereAgree(items, keep, (it: Item) => TopLevel(it, ids));
      IdsWhereIsWhere(items, (it: Item) => TopLevel(it, ids));
    }
  }

  /** A forest shows, at every node, exactly the entries that hang below it, in list order, and at
      the top those without a listed parent; and whatever does so is a forest of the list. */
  lemma ForestIsInListOrder(items: seq<Item>, f: seq<Node>)
    ensures IsForestOf(items, f) <==> ShownInListOrder(items, f)
  {
    hide InListOrder;
    ListOrderIs(items, None, Tops(f));
    if IsForestOf(items, f) {
      forall n | Within(f, n) ensures InListOrder(items, Some(n.id), Tops(n.children)) {
        MirrorsWithin(items, f, n);
        ListOrderIs(items, Some(n.id), Tops(n.children));
      }
    }
    if ShownInListOrder(items, f) {
      forall n | n in f ensures Mirrors(items, n) {
        var k :| 0 <= k < |f| && f[k] == n;
        assert Within(f, n);
        InOrderMirrors(items, n);
      }
    }
  }

  ghost predicate ShownInListOrder(items: seq<Item>, f: seq<Node>) {
    && InListOrder(items, None, Tops(f))
    && forall n :: Within(f, n) ==> InListOrder(items, Some(n.id), Tops(n.children))
  }

  lemma {:induction false} MirrorsWithin(items: seq<Item>, ns: seq<Node>, n: Node)
    requires (forall c :: c in ns ==> Mirrors(items, c)) && Within(ns, n)
    ensures Mirrors(items, n)
    decreases ns
  {
    var k :| 0 <= k < |ns| && (n == ns[k] || Within(ns[k].children, n));
    assert Mirrors(items, ns[k]);
    if n != ns[k] { MirrorsWithin(items, ns[k].children, n); }
  }

  lemma {:induction false} InOrderMirrors(items: seq<Item>, n: Node)
    requires InListOrder(items, Some(n.id), Tops(n.children))
    requires forall m :: Within(n.children, m) ==> InListOrder(items, Some(m.id), Tops(m.children))
    ensures Mirrors(items, n)
    decreases n
  {
    hide InListOrder;
    ListOrderIs(items, Some(n.id), Tops(n.children));
    forall c | c in n.children ensures Mirrors(items, c) {
      var k :| 0 <= k < |n.children| && n.children[k] == c;
      assert Within(n.children, c);
      forall m | Within(c.children, m) ensures InListOrder(items, Some(m.id), Tops(m.children)) {
        assert Within(n.children, m);
      }
      InOrderMirrors(items, c);
    }
  }

  /** Each of ids stands later in the list than those before it. */
  ghost predicate Ascend(items: seq<Item>, ids: seq<Id>) {
    && (forall x :: x in ids ==> x in Ids(items))
    && forall i, j :: 0 <= i < j < |ids| ==> IndexOf(Ids(items), ids[i]) < IndexOf(Ids(items), ids[j])
  }

  /** With distinct ids: roots and siblings stand in the order of the list, at every depth. */
  lemma ForestAscends(items: seq<Item>, f: seq<Node>)
    requires Distinct(Ids(items)) && IsForestOf(items, f)
    ensures Ascend(items, Tops(f))
    ensures forall n :: Within(f, n) ==> Ascend(items, Tops(n.children))
  {
    hide InListOrder;
    ForestIsInListOrder(items, f);
    InOrderAscends(items, None, Tops(f));
    forall n | Within(f, n) ensures Ascend(items, Tops(n.children)) {
      InOrderAscends(items, Some(n.id), Tops(n.children));
    }
  }

  lemma InOrderAscends(items: seq<Item>, parent: Option<Id>, ids: seq<Id>)
    requires Distinct(Ids(items)) && InListOrder(items, parent, ids)
    ensures Ascend(items, ids)
  {
    var at :| InOrderAt(items, parent, ids, at);
    forall i | 0 <= i < |ids| ensures ids[i] in Ids(items) && IndexOf(Ids(items), ids[i]) == at[i] {
      assert Ids(items)[at[i]] == ids[i];
    }
  }

  function Flat(n: Node): seq<Id> {
    [n.id] + FlatAll(n.children)
  }

  /** The ids of a forest in display order. */
  function FlatAll(ns: seq<Node>): seq<Id> {
    if ns == [] then [] else Flat(ns[0]) + FlatAll(ns[1..])
  }

  function Bucket(children: map<Id, seq<Id>>, p: Id): seq<Id> {
    if p in children then children[p] else []
  }

  ghost predicate Buckets(items: seq<Item>, children: map<Id, seq<Id>>) {
    forall p :: Bucket(children, p) == if p in Ids(items) then Kids(items, p) else []
  }

  lemma TopsCons(n: Node, ns: seq<Node>, ids: seq<Id>)
    requires ids != [] && n.id == ids[0] && Tops(ns) == ids[1..]
    ensures Tops([n] + ns) == ids
  {
  }

  /** The recursion from one id. The measure is the number of list entries not on the
      path from the root, and path carries that path. */
  function Walk(id: Id, children: map<Id, seq<Id>>, ghost items: seq<Item>, ghost path: seq<Id>): (n: Node)
    requires Buckets(items, children) && NoRevisit(items)
    requires RootChain(items, path) && Last(path) == id
    ensures n.id == id && Mirrors(items, n)
    decreases |items| - |path|, 1, 0
  {
    ChainBound(items, path);
    ChainListed(items, path);
    assert forall c :: c in Bucket(children, id) ==> RootChain(items, path + [c]) by {
      forall c | c in Bucket(children, id) ensures RootChain(items, path + [c]) {
        KidsMembers(items, id, c);
        ExtendChain(items, path, c);
      }
    }
    Node(id, WalkAll(Bucket(children, id), children, items, path))
  }

  function WalkAll(ids: seq<Id>, children: map<Id, seq<Id>>, ghost items: seq<Item>, ghost path: seq<Id>)
    : (ns: seq<Node>)
    requires Buckets(items, children) && NoRevisit(items)
    requires |path| <= |items|
    requires forall c :: c in ids ==> RootChain(items, path + [c])
    ensures Tops(ns) == ids
    ensures forall n :: n in ns ==> Mirrors(items, n)
    decreases |items| - |path|, 0, |ids|
  {
    if ids == [] then []
    else
      ChainBound(items, path + [ids[0]]);
      var first := Walk(ids[0], children, items, path + [ids[0]]);
      var others := WalkAll(ids[1..], children, items, path);
      TopsCons(first, others, ids);
      [first] + others
  }

  lemma TopLevelIs(item: Item, ids: set<Id>)
    ensures TopLevel(item, ids) <==> !(item.parent.Some? && item.parent.value in ids)
  {
  }

  /** The first pass: children by parent, and the roots, each in list order. */
  method BucketByParent(items: seq<Item>) returns (children: map<Id, seq<Id>>, roots: seq<Id>)
    ensures Buckets(items, children) && roots == Roots(items)
    ensures InListOrder(items, None, roots)
    ensures forall p :: p in Ids(items) ==> InListOrder(items, Some(p), Bucket(children, p))
  {
    hide InListOrder;
    hide TopLevel;
    var ids := ToSet(Ids(items));
    children, roots := map[], [];
    for i := 0 to |items|
      invariant roots == IdsWhere(items[..i], (it: Item) => TopLevel(it, ids))
      invariant forall p :: Bucket(children, p) == if p in ids then Kids(items[..i], p) else []
    {
      assert items[..i + 1][..i] == items[..i];
      var item := items[i];
      TopLevelIs(item, ids);
      if item.parent.Some? && item.parent.value in ids {
        var parent := item.parent.value;
        children := children[parent := Bucket(children, parent) + [item.id]];
      } else {
        roots := roots + [item.id];
      }
    }
    assert items[..|items|] == items;
    ListOrderIs(items, None, roots);
    forall p | p in Ids(items) ensures InListOrder(items, Some(p), Bucket(children, p)) {
      ListOrderIs(items, Some(p), Bucket(children, p));
    }
  }

  /** Both passes. The result is a forest over the list (and the only one: ForestIsUnique). */
  method Build(items: seq<Item>) returns (forest: seq<Node>)
    requires Distinct(Ids(items))
    ensures IsForestOf(items, forest) && ShownInListOrder(items, forest)
    ensures Ascend(items, Tops(forest)) && forall n :: Within(forest, n) ==> Ascend(items, Tops(n.children))
  {
    hide Roots;
    hide Kids;
    hide ShownInListOrder;
    hide Ascend;
    DistinctIdsNeverRevisit(items);
    var children, roots := BucketByParent(items);
    forall r | r in roots ensures RootChain(items, [] + [r]) {
      RootsMembers(items, r);
    }
    forest := WalkAll(roots, children, items, []);
    ForestIsInListOrder(items, forest);
    ForestAscends(items, forest);
  }
}
