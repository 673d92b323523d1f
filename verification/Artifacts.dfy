/** The artifact list nested under a kind and a status filter (artifacts.rs). */
module Artifacts {
  import opened Basics
  import opened Forest
  import opened ForestFacts

  const FILTER_ALL := "все"

  datatype ArtifactStub = ArtifactStub(id: Id, kind: string, status: Option<string>, parentId: Option<Id>)

  function MatchesFilter(item: ArtifactStub, kind: Option<string>, status: Option<string>): bool {
    if kind.Some? && kind.value != "" && kind.value != FILTER_ALL && item.kind != kind.value then false
    else if status.Some? && status.value != "" && status.value != FILTER_ALL then item.status == status
    else true
  }

  function Visible(items: seq<ArtifactStub>, kind: Option<string>, status: Option<string>): seq<ArtifactStub> {
    Where(items, a => MatchesFilter(a, kind, status))
  }

  /** The entries a forest is built over: the id and parent of each artifact. */
  function Entries(items: seq<ArtifactStub>): (r: seq<Item>)
    ensures |r| == |items|
    ensures forall k :: 0 <= k < |items| ==> r[k] == Item(items[k].id, items[k].parentId)
  {
    seq(|items|, k requires 0 <= k < |items| => Item(items[k].id, items[k].parentId))
  }

  method BuildTree(items: seq<ArtifactStub>, kind: Option<string>, status: Option<string>) returns (forest: seq<Node>)
    requires Distinct(Ids(Entries(Visible(items, kind, status))))
    ensures IsForestOf(Entries(Visible(items, kind, status)), forest)
    ensures ShownInListOrder(Entries(Visible(items, kind, status)), forest)
  {
    forest := Build(Entries(Visible(items, kind, status)));
  }

  predicate NoFilter(f: Option<string>) {
    f in {None, Some(""), Some(FILTER_ALL)}
  }

  /** A filter asks for one value, or for nothing. */
  lemma MatchesFilterMeaning(item: ArtifactStub, kind: Option<string>, status: Option<string>)
    ensures MatchesFilter(item, kind, status) <==>
            (NoFilter(kind) || Some(item.kind) == kind) && (NoFilter(status) || item.status == status)
  {
  }

  lemma VisibleMembers(items: seq<ArtifactStub>, kind: Option<string>, status: Option<string>, a: ArtifactStub)
    ensures a in Visible(items, kind, status) <==> a in items && MatchesFilter(a, kind, status)
  {
    WhereMembers(items, a => MatchesFilter(a, kind, status), a);
  }

  /** Ids distinct in the whole list are distinct under every filter. */
  lemma {:induction false} VisibleDistinct(items: seq<ArtifactStub>, kind: Option<string>, status: Option<string>)
    requires Distinct(Ids(Entries(items)))
    ensures Distinct(Ids(Entries(Visible(items, kind, status))))
  {
    hide MatchesFilter;
    if items != [] {
      var front, last := items[..|items| - 1], Last(items);
      assert forall k :: 0 <= k < |front| ==> Ids(Entries(front))[k] == Ids(Entries(items))[k];
      VisibleDistinct(front, kind, status);
      var v := Visible(front, kind, status);
      forall k | 0 <= k < |v| ensures v[k].id != last.id {
        VisibleMembers(front, kind, status, v[k]);
        var j :| 0 <= j < |front| && front[j] == v[k];
        assert Ids(Entries(items))[j] != Ids(Entries(items))[|items| - 1];
      }
      var all := Visible(items, kind, status);
      assert forall k :: 0 <= k < |v| ==> Ids(Entries(all))[k] == v[k].id == Ids(Entries(v))[k];
    }
  }

  /** All ways of leaving a filter open show the same artifacts, hence the same forest. */
  lemma OpenFiltersAgree(items: seq<ArtifactStub>, kind: Option<string>, kind': Option<string>,
                         status: Option<string>, status': Option<string>)
    requires kind == kind' || (NoFilter(kind) && NoFilter(kind'))
    requires status == status' || (NoFilter(status) && NoFilter(status'))
    ensures Visible(items, kind, status) == Visible(items, kind', status')
  {
    WhereAgree(items, a => MatchesFilter(a, kind, status), a => MatchesFilter(a, kind', status'));
  }

  /** a is one of the artifacts the filter lets through. */
  ghost predicate Shows(items: seq<ArtifactStub>, kind: Option<string>, status: Option<string>, a: ArtifactStub) {
    a in items && MatchesFilter(a, kind, status)
  }

  /** Some visible artifact is called x. */
  ghost predicate IdShown(items: seq<ArtifactStub>, kind: Option<string>, status: Option<string>, x: Id) {
    exists a :: Shows(items, kind, status, a) && a.id == x
  }

  lemma VisibleIds(items: seq<ArtifactStub>, kind: Option<string>, status: Option<string>, x: Id)
    ensures x in Ids(Entries(Visible(items, kind, status))) <==> IdShown(items, kind, status, x)
  {
    var v := Visible(items, kind, status);
    if x in Ids(Entries(v)) {
      var k :| 0 <= k < |v| && Ids(Entries(v))[k] == x;
      VisibleMembers(items, kind, status, v[k]);
      assert Shows(items, kind, status, v[k]);
    }
    if IdShown(items, kind, status, x) {
      var a :| Shows(items, kind, status, a) && a.id == x;
      VisibleMembers(items, kind, status, a);
      var k :| 0 <= k < |v| && v[k] == a;
      assert Ids(Entries(v))[k] == x;
    }
  }

  /** An artifact is a root exactly when it is visible and its parent is absent, missing
      or filtered out. */
  lemma RootIffParentNotVisible(items: seq<ArtifactStub>, kind: Option<string>, status: Option<string>,
                                f: seq<Node>, r: Id)
    requires IsForestOf(Entries(Visible(items, kind, status)), f)
    ensures r in Tops(f) <==>
            exists a :: Shows(items, kind, status, a) && a.id == r
                        && (a.parentId.None? || !IdShown(items, kind, status, a.parentId.value))
  {
    hide Visible;
    hide MatchesFilter;
    hide IdShown;
    hide Flat;
    hide Mirrors;
    var v := Visible(items, kind, status);
    var entries := Entries(v);
    RootsMembers(entries, r);
    if r in Tops(f) {
      var k :| 0 <= k < |entries| && entries[k].id == r && TopLevel(entries[k], ToSet(Ids(entries)));
      VisibleMembers(items, kind, status, v[k]);
      if v[k].parentId.Some? { VisibleIds(items, kind, status, v[k].parentId.value); }
      assert Shows(items, kind, status, v[k]);
    }
    if a :| Shows(items, kind, status, a) && a.id == r
            && (a.parentId.None? || !IdShown(items, kind, status, a.parentId.value)) {
      VisibleMembers(items, kind, status, a);
      if a.parentId.Some? { VisibleIds(items, kind, status, a.parentId.value); }
      var k :| 0 <= k < |v| && v[k] == a;
      assert entries[k].id == r && TopLevel(entries[k], ToSet(Ids(entries)));
    }
  }

  lemma LinkIffBothVisible(items: seq<ArtifactStub>, kind: Option<string>, status: Option<string>, p: Id, c: Id)
    ensures ParentLink(Entries(Visible(items, kind, status)), p, c) <==>
            exists b :: Shows(items, kind, status, b) && b.id == c && b.parentId == Some(p)
  {
    var v := Visible(items, kind, status);
    var entries := Entries(v);
    if ParentLink(entries, p, c) {
      var k :| 0 <= k < |entries| && entries[k].id == c && entries[k].parent == Some(p);
      VisibleMembers(items, kind, status, v[k]);
      assert Shows(items, kind, status, v[k]);
    }
    if b :| Shows(items, kind, status, b) && b.id == c && b.parentId == Some(p) {
      VisibleMembers(items, kind, status, b);
      var k :| 0 <= k < |v| && v[k] == b;
      assert entries[k].id == c && entries[k].parent == Some(p);
    }
  }

  /** Every visible artifact is shown exactly once iff the visible links are acyclic. */
  lemma CompleteIffAcyclic(items: seq<ArtifactStub>, kind: Option<string>, status: Option<string>, f: seq<Node>)
    requires Distinct(Ids(Entries(Visible(items, kind, status))))
    requires IsForestOf(Entries(Visible(items, kind, status)), f)
    ensures Acyclic(Entries(Visible(items, kind, status))) <==>
            Distinct(FlatAll(f)) && forall x :: x in FlatAll(f) <==> IdShown(items, kind, status, x)
  {
    var v := Visible(items, kind, status);
    PermutationIffAcyclic(Entries(v), f);
    ShownOnce(Entries(v), f);
    forall x ensures x in Ids(Entries(v)) <==> IdShown(items, kind, status, x) { VisibleIds(items, kind, status, x); }
    if multiset(FlatAll(f)) == multiset(Ids(Entries(v))) {
      forall x ensures x in FlatAll(f) <==> x in Ids(Entries(v)) {
        assert x in multiset(FlatAll(f)) <==> x in multiset(Ids(Entries(v)));
      }
    }
    if forall x :: x in FlatAll(f) <==> IdShown(items, kind, status, x) {
      SameElementsArePermutation(FlatAll(f), Ids(Entries(v)));
    }
  }

  /** Then the edges are the parent links with both ends visible, and no others. */
  lemma EdgeIffBothVisible(items: seq<ArtifactStub>, kind: Option<string>, status: Option<string>,
                           f: seq<Node>, p: Id, c: Id)
    requires Distinct(Ids(Entries(Visible(items, kind, status))))
    requires IsForestOf(Entries(Visible(items, kind, status)), f)
    requires Acyclic(Entries(Visible(items, kind, status)))
    ensures Edge(f, p, c) <==>
            IdShown(items, kind, status, p)
            && exists b :: Shows(items, kind, status, b) && b.id == c && b.parentId == Some(p)
  {
    EdgesAreShownLinks(Entries(Visible(items, kind, status)), f, p, c);
    LinkIffBothVisible(items, kind, status, p, c);
    CompleteIffAcyclic(items, kind, status, f);
  }
}
