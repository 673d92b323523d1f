/** Shared vocabulary: optional values, and sequences without repeats. */
module Basics {

  /** Agents, tasks, artifacts and messages are named by strings. */
  type Id = string

  datatype Option<+T> = None | Some(value: T)

  datatype Result<+T, +E> = Ok(value: T) | Err(error: E)

  ghost predicate Distinct<T>(s: seq<T>) {
    forall i, j :: 0 <= i < j < |s| ==> s[i] != s[j]
  }

  function Last<T>(s: seq<T>): T
    requires s != []
  {
    s[|s| - 1]
  }

  lemma DistinctConcat<T>(s: seq<T>, t: seq<T>)
    requires Distinct(s) && Distinct(t)
    requires forall x :: x in s ==> x !in t
    ensures Distinct(s + t)
  {
    var st := s + t;
    forall i, j | 0 <= i < j < |st| ensures st[i] != st[j] {
      if i < |s| <= j { assert s[i] in s && t[j - |s|] in t; }
    }
  }

  lemma ConcatAssociates<T>(a: seq<T>, b: seq<T>, c: seq<T>)
    ensures (a + b) + c == a + (b + c)
  {
  }

  function ToSet<T(==)>(s: seq<T>): set<T> {
    set x | x in s
  }

  lemma {:induction false} DistinctCardinality<T>(s: seq<T>)
    requires Distinct(s)
    ensures |ToSet(s)| == |s|
  {
    if s != [] {
      var front := s[..|s| - 1];
      DistinctCardinality(front);
      assert ToSet(s) == ToSet(front) + {Last(s)};
      assert Last(s) !in front;
    }
  }

  lemma {:induction false} CardinalityBound<T>(s: seq<T>)
    ensures |ToSet(s)| <= |s|
  {
    if s != [] {
      var front := s[..|s| - 1];
      CardinalityBound(front);
      assert ToSet(s) == ToSet(front) + {Last(s)};
    }
  }

  lemma SubsetCardinality<T>(a: set<T>, b: set<T>)
    requires a <= b
    ensures |a| <= |b|
  {
    if a != {} {
      var x :| x in a;
      SubsetCardinality(a - {x}, b - {x});
    }
  }

  /** A sequence without repeats fits into any sequence that has all its elements. */
  lemma Pigeonhole<T>(s: seq<T>, t: seq<T>)
    requires Distinct(s)
    requires forall x :: x in s ==> x in t
    ensures |s| <= |t|
  {
    DistinctCardinality(s);
    CardinalityBound(t);
    SubsetCardinality(ToSet(s), ToSet(t));
  }

  lemma {:induction false} DistinctMultiset<T>(s: seq<T>, x: T)
    requires Distinct(s)
    ensures multiset(s)[x] == if x in s then 1 else 0
  {
    if s != [] {
      var front := s[..|s| - 1];
      assert s == front + [Last(s)];
      DistinctMultiset(front, x);
      assert Last(s) !in front;
    }
  }

  /** Two sequences without repeats and with the same elements are permutations of each other. */
  lemma SameElementsArePermutation<T>(s: seq<T>, t: seq<T>)
    requires Distinct(s) && Distinct(t)
    requires forall x :: x in s <==> x in t
    ensures multiset(s) == multiset(t)
  {
    forall x ensures multiset(s)[x] == multiset(t)[x] {
      DistinctMultiset(s, x);
      DistinctMultiset(t, x);
    }
  }

  /** The last element of a, found in a permutation of a. */
  lemma FindInPermutation<T>(a: seq<T>, b: seq<T>) returns (before: seq<T>, after: seq<T>)
    requires multiset(a) == multiset(b) && a != []
    ensures b == before + [Last(a)] + after
    ensures multiset(a[..|a| - 1]) == multiset(before + after)
  {
    var x, front := Last(a), a[..|a| - 1];
    assert a == front + [x];
    assert x in multiset(b);
    var k :| 0 <= k < |b| && b[k] == x;
    before, after := b[..k], b[k + 1..];
    assert b == before + [x] + after;
    calc {
      multiset(front);
      multiset(a) - multiset{x};
      multiset(before + [x] + after) - multiset{x};
      multiset(before) + multiset(after);
      multiset(before + after);
    }
  }

  /** The elements to keep, in order. */
  function Where<T>(s: seq<T>, keep: T -> bool): seq<T> {
    if s == [] then [] else Where(s[..|s| - 1], keep) + if keep(Last(s)) then [Last(s)] else []
  }

  /** The positions of s whose elements are kept, in increasing order. */
  ghost predicate Picks<T>(s: seq<T>, keep: T -> bool, at: seq<nat>) {
    && (forall i, j :: 0 <= i < j < |at| ==> at[i] < at[j])
    && (forall i :: 0 <= i < |at| ==> at[i] < |s|)
    && (forall k: nat :: k < |s| ==> (k in at <==> keep(s[k])))
  }

  /** What is kept are the elements at those positions, one by one: nothing is reordered, left out
      or repeated. */
  lemma {:induction false} WherePicks<T>(s: seq<T>, keep: T -> bool) returns (at: seq<nat>)
    ensures Picks(s, keep, at) && |at| == |Where(s, keep)|
    ensures forall i :: 0 <= i < |at| ==> Where(s, keep)[i] == s[at[i]]
  {
    hide Picks;
    at := [];
    if s == [] {
      PicksNothing(keep, at);
    } else {
      var n := |s| - 1;
      var front := WherePicks(s[..n], keep);
      PicksInRange(s[..n], keep, front);
      at := if keep(s[n]) then front + [n] else front;
      PicksSnoc(s, keep, front);
    }
  }

  lemma PicksNothing<T>(keep: T -> bool, at: seq<nat>)
    ensures Picks([], keep, at) <==> at == []
  {
    if at != [] { assert at[0] >= 0; }
  }

  lemma PicksInRange<T>(s: seq<T>, keep: T -> bool, at: seq<nat>)
    requires Picks(s, keep, at)
    ensures forall i :: 0 <= i < |at| ==> at[i] < |s|
  {
  }

  lemma PicksSnoc<T>(s: seq<T>, keep: T -> bool, front: seq<nat>)
    requires s != [] && Picks(s[..|s| - 1], keep, front)
    ensures Picks(s, keep, if keep(Last(s)) then front + [|s| - 1] else front)
  {
    var n := |s| - 1;
    var at := if keep(s[n]) then front + [n] else front;
    forall k: nat | k < |s| ensures k in at <==> keep(s[k]) {
      if k < n { assert s[..n][k] == s[k] && (k in at <==> k in front); } else { assert n in [n] && n !in front; }
    }
  }

  lemma PicksFront<T>(s: seq<T>, keep: T -> bool, at: seq<nat>)
    requires s != [] && Picks(s, keep, at)
    ensures if keep(Last(s)) then at != [] && Last(at) == |s| - 1 && Picks(s[..|s| - 1], keep, at[..|at| - 1])
            else Picks(s[..|s| - 1], keep, at)
  {
    var n := |s| - 1;
    if keep(s[n]) {
      assert n in at;
      var i :| 0 <= i < |at| && at[i] == n;
      assert i == |at| - 1 by { assert at[i] <= Last(at); }
      var front := at[..i];
      forall k: nat | k < n ensures k in front <==> keep(s[..n][k]) {
        assert s[..n][k] == s[k];
        if k in at { var j :| 0 <= j < |at| && at[j] == k; assert j < i && front[j] == k; }
      }
    } else {
      assert forall i :: 0 <= i < |at| ==> at[i] in at && at[i] != n;
      assert forall k: nat :: k < n ==> s[..n][k] == s[k];
    }
  }

  /** Whatever consists of the kept elements in order is what is kept. */
  lemma {:induction false} PickedIsWhere<T>(s: seq<T>, keep: T -> bool, at: seq<nat>, picked: seq<T>)
    requires Picks(s, keep, at) && |picked| == |at|
    requires forall i :: 0 <= i < |at| ==> picked[i] == s[at[i]]
    ensures picked == Where(s, keep)
  {
    if s == [] {
      PicksNothing(keep, at);
    } else {
      var n := |s| - 1;
      PicksFront(s, keep, at);
      if keep(s[n]) {
        var m := |at| - 1;
        PickedIsWhere(s[..n], keep, at[..m], picked[..m]);
        assert picked == picked[..m] + [s[n]];
      } else {
        PickedIsWhere(s[..n], keep, at, picked);
      }
    }
  }

  lemma {:induction false} WhereMembers<T>(s: seq<T>, keep: T -> bool, x: T)
    ensures x in Where(s, keep) <==> x in s && keep(x)
  {
    if s != [] {
      WhereMembers(s[..|s| - 1], keep, x);
      assert s == s[..|s| - 1] + [Last(s)];
    }
  }

  lemma {:induction false} WhereDistinct<T>(s: seq<T>, keep: T -> bool)
    requires Distinct(s)
    ensures Distinct(Where(s, keep))
  {
    if s != [] {
      WhereDistinct(s[..|s| - 1], keep);
      WhereMembers(s[..|s| - 1], keep, Last(s));
    }
  }

  lemma {:induction false} WhereConcat<T>(s: seq<T>, t: seq<T>, keep: T -> bool)
    ensures Where(s + t, keep) == Where(s, keep) + Where(t, keep)
  {
    if t == [] {
      assert s + t == s;
    } else {
      assert (s + t)[..|s + t| - 1] == s + t[..|t| - 1];
      WhereConcat(s, t[..|t| - 1], keep);
    }
  }

  lemma {:induction false} WhereAll<T>(s: seq<T>, keep: T -> bool)
    requires forall x :: x in s ==> keep(x)
    ensures Where(s, keep) == s
  {
    if s != [] {
      assert s == s[..|s| - 1] + [Last(s)];
      WhereAll(s[..|s| - 1], keep);
    }
  }

  lemma {:induction false} WhereNone<T>(s: seq<T>, keep: T -> bool)
    requires forall x :: x in s ==> !keep(x)
    ensures Where(s, keep) == []
  {
    if s != [] {
      assert s == s[..|s| - 1] + [Last(s)];
      WhereNone(s[..|s| - 1], keep);
    }
  }

  lemma {:induction false} WhereAgree<T>(s: seq<T>, keep: T -> bool, keep': T -> bool)
    requires forall x :: x in s ==> keep(x) == keep'(x)
    ensures Where(s, keep) == Where(s, keep')
  {
    if s != [] {
      assert s == s[..|s| - 1] + [Last(s)];
      WhereAgree(s[..|s| - 1], keep, keep');
    }
  }

  /** The first position of x. */
  function IndexOf<T(==)>(s: seq<T>, x: T): (k: nat)
    requires x in s
    ensures k < |s| && s[k] == x && x !in s[..k]
  {
    if s[0] == x then 0 else
      var k := 1 + IndexOf(s[1..], x);
      assert s[..k] == [s[0]] + s[1..][..k - 1];
      k
  }
}
