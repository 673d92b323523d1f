/** Agent-to-agent messages: the transcript line format and the inbox (a2a.rs). */
module A2a {
  import opened Basics
  import opened Text

  const A2A_PREFIX := "a2a:"

  datatype InboxItem = InboxItem(fromAgentId: string, toAgentId: string, messageId: string, content: string)

  datatype ChatMessage = ChatMessage(id: string, role: string, content: string)

  // ------------------------------------------------------------ line format

  /** The parts before and after the first newline. */
  function SplitOnce(s: string): (r: (string, string))
    ensures '\n' !in r.0
    ensures s == (if '\n' in s then r.0 + ("\n" + r.1) else r.0) && ('\n' !in s ==> r.1 == "")
  {
    var n := Span(s, c => c == '\n');
    assert s == s[..n] + s[n..];
    if n < |s| then
      assert s[n..] == [s[n]] + s[n + 1..];
      (s[..n], s[n + 1..])
    else (s[..n], "")
  }

  /** "a2a:<from>\n<body>"; without a newline the body is empty. */
  function ParseA2aPrefix(content: string): Option<(string, string)> {
    match StripPrefix(content, A2A_PREFIX)
    case None => None
    case Some(rest) =>
      var (from, body) := SplitOnce(rest);
      if from == "" then None else Some((from, body))
  }

  function PrintA2a(from: string, body: string): string {
    A2A_PREFIX + (from + ("\n" + body))
  }

  /** Parsing undoes printing exactly for the senders the format can carry. */
  lemma ParseInvertsPrint(from: string, body: string)
    ensures ParseA2aPrefix(PrintA2a(from, body)) == Some((from, body)) <==> from != "" && '\n' !in from
  {
    var rest := from + ("\n" + body);
    assert StripPrefix(PrintA2a(from, body), A2A_PREFIX) == Some(rest);
    if '\n' !in from {
      SpanStopsAt(from, "\n" + body, c => c == '\n');
      assert rest[..|from|] == from && rest[|from| + 1..] == body;
    }
  }

  /** Printing undoes parsing, up to the newline a bodiless line may lack. */
  lemma PrintInvertsParse(content: string)
    requires ParseA2aPrefix(content).Some?
    ensures var (from, body) := ParseA2aPrefix(content).value;
            from != "" && '\n' !in from
            && (content == PrintA2a(from, body) || (body == "" && content == A2A_PREFIX + from))
  {
    hide SplitOnce;
  }

  function InboxItemFromMessage(toAgentId: string, m: ChatMessage): Option<InboxItem> {
    if m.role == "system" && A2A_PREFIX <= m.content then
      match ParseA2aPrefix(m.content)
      case None => None
      case Some((from, body)) => Some(InboxItem(from, toAgentId, m.id, body))
    else None
  }

  /** The inbox items a transcript announces, in transcript order. */
  function Announced(toAgentId: string, messages: seq<ChatMessage>): seq<InboxItem> {
    if messages == [] then []
    else
      Announced(toAgentId, messages[..|messages| - 1])
        + match InboxItemFromMessage(toAgentId, Last(messages)) { case None => [] case Some(item) => [item] }
  }

  /** content is "a2a:", a sender, and after a newline the body; the newline may be missing if the
      body is empty. */
  predicate Carries(content: string, from: string, body: string) {
    && from != "" && '\n' !in from
    && (content == "a2a:" + (from + ("\n" + body)) || (body == "" && content == "a2a:" + from))
  }

  ghost predicate Announces(m: ChatMessage) {
    m.role == "system" && exists from, body :: Carries(m.content, from, body)
  }

  lemma CarriesIsParsed(content: string, from: string, body: string)
    ensures Carries(content, from, body) <==> ParseA2aPrefix(content) == Some((from, body))
  {
    hide SplitOnce;
    if ParseA2aPrefix(content) == Some((from, body)) { PrintInvertsParse(content); }
    if Carries(content, from, body) {
      if content == "a2a:" + (from + ("\n" + body)) {
        ParseInvertsPrint(from, body);
      } else {
        assert content[4..] == from && StripPrefix(content, A2A_PREFIX) == Some(from);
      }
    }
  }

  lemma AnnouncesIff(to: string, m: ChatMessage)
    ensures InboxItemFromMessage(to, m).Some? <==> Announces(m)
    ensures InboxItemFromMessage(to, m).Some? ==>
              var item := InboxItemFromMessage(to, m).value;
              item.toAgentId == to && item.messageId == m.id && Carries(m.content, item.fromAgentId, item.content)
  {
    hide ParseA2aPrefix;
    hide Carries;
    if InboxItemFromMessage(to, m).Some? {
      var item := InboxItemFromMessage(to, m).value;
      CarriesIsParsed(m.content, item.fromAgentId, item.content);
    }
    if Announces(m) {
      var from, body :| Carries(m.content, from, body);
      CarriesIsParsed(m.content, from, body);
      CarriedHasPrefix(m.content, from, body);
    }
  }

  lemma CarriedHasPrefix(content: string, from: string, body: string)
    requires Carries(content, from, body)
    ensures A2A_PREFIX <= content
  {
  }

  /** What a transcript announces: one item for each system message that carries a sender, in
      transcript order, with the message's own id, sender and body. */
  lemma {:induction false} AnnouncedInOrder(to: string, messages: seq<ChatMessage>) returns (at: seq<nat>)
    ensures Picks(messages, m => Announces(m), at) && |at| == |Announced(to, messages)|
    ensures forall i :: 0 <= i < |at| ==>
              var item, m := Announced(to, messages)[i], messages[at[i]];
              item.toAgentId == to && item.messageId == m.id && Carries(m.content, item.fromAgentId, item.content)
  {
    hide InboxItemFromMessage;
    hide Announces;
    hide Carries;
    hide Picks;
    if messages == [] {
      at := [];
      PicksNothing(m => Announces(m), at);
    } else {
      var n := |messages| - 1;
      var front := AnnouncedInOrder(to, messages[..n]);
      AnnouncesIff(to, messages[n]);
      PicksInRange(messages[..n], m => Announces(m), front);
      at := if Announces(messages[n]) then front + [n] else front;
      PicksSnoc(messages, m => Announces(m), front);
    }
  }

  // ------------------------------------------------------------ the inbox

  predicate Holds(items: seq<InboxItem>, messageId: string) {
    exists k :: 0 <= k < |items| && items[k].messageId == messageId
  }

  /** A message id already seen is dropped, unless it is empty. */
  function Merge(items: seq<InboxItem>, item: InboxItem): seq<InboxItem> {
    if Holds(items, item.messageId) && item.messageId != "" then items else items + [item]
  }

  function MergeAll(items: seq<InboxItem>, arrivals: seq<InboxItem>): seq<InboxItem> {
    if arrivals == [] then items else Merge(MergeAll(items, arrivals[..|arrivals| - 1]), Last(arrivals))
  }

  ghost predicate IdsOnce(items: seq<InboxItem>) {
    forall i, j :: 0 <= i < j < |items| && items[i].messageId == items[j].messageId ==> items[i].messageId == ""
  }

  lemma {:induction false} MergeAllFacts(items: seq<InboxItem>, arrivals: seq<InboxItem>)
    ensures items <= MergeAll(items, arrivals)
    ensures IdsOnce(items) ==> IdsOnce(MergeAll(items, arrivals))
    ensures forall id :: Holds(MergeAll(items, arrivals), id) <==> Holds(items, id) || Holds(arrivals, id)
    ensures forall x :: x in MergeAll(items, arrivals) ==> x in items || x in arrivals
  {
    if arrivals != [] {
      var front := arrivals[..|arrivals| - 1];
      MergeAllFacts(items, front);
      assert forall id :: Holds(arrivals, id) <==> Holds(front, id) || Last(arrivals).messageId == id by {
        forall id ensures Holds(arrivals, id) <==> Holds(front, id) || Last(arrivals).messageId == id {
          assert arrivals[|arrivals| - 1] == Last(arrivals);
          if Holds(front, id) {
            var k :| 0 <= k < |front| && front[k].messageId == id;
            assert arrivals[k].messageId == id;
          }
          if Holds(arrivals, id) {
            var k :| 0 <= k < |arrivals| && arrivals[k].messageId == id;
            if k < |front| { assert front[k].messageId == id; }
          }
        }
      }
      MergeHolds(MergeAll(items, front), Last(arrivals));
    }
  }

  lemma MergeHolds(items: seq<InboxItem>, item: InboxItem)
    ensures forall id :: Holds(Merge(items, item), id) <==> Holds(items, id) || item.messageId == id
  {
    var merged := Merge(items, item);
    forall id ensures Holds(merged, id) <==> Holds(items, id) || item.messageId == id {
      if Holds(items, id) { var k :| 0 <= k < |items| && items[k].messageId == id; assert merged[k].messageId == id; }
      if Holds(merged, id) {
        var k :| 0 <= k < |merged| && merged[k].messageId == id;
        if k < |items| { assert items[k].messageId == id; }
      }
      if item.messageId == id && merged != items { assert merged[|items|].messageId == id; }
    }
  }

  /** Arrival k has no message id, or one that neither the inbox nor an earlier arrival has. */
  ghost predicate IsNews(items: seq<InboxItem>, arrivals: seq<InboxItem>, k: nat)
    requires k < |arrivals|
  {
    var id := arrivals[k].messageId;
    id == "" || (!Holds(items, id) && !Holds(arrivals[..k], id))
  }

  /** An inbox gains exactly the news: the first content seen for a message id stays. */
  lemma {:induction false} MergeAllAddsNews(items: seq<InboxItem>, arrivals: seq<InboxItem>)
    ensures forall x :: x in MergeAll(items, arrivals) <==>
                        x in items || exists k :: 0 <= k < |arrivals| && IsNews(items, arrivals, k) && arrivals[k] == x
  {
    if arrivals != [] {
      var front, last := arrivals[..|arrivals| - 1], |arrivals| - 1;
      MergeAllAddsNews(items, front);
      MergeAllFacts(items, front);
      assert IsNews(items, arrivals, last) <==>
             !(Holds(MergeAll(items, front), arrivals[last].messageId) && arrivals[last].messageId != "");
      forall k | 0 <= k < last ensures IsNews(items, front, k) <==> IsNews(items, arrivals, k) {
        assert front[..k] == arrivals[..k] && front[k] == arrivals[k];
      }
    }
  }

  /** The news stand behind what was there, in the order of arrival. */
  lemma {:induction false} MergeAllAppendsNews(items: seq<InboxItem>, arrivals: seq<InboxItem>) returns (at: seq<nat>)
    ensures forall i, j :: 0 <= i < j < |at| ==> at[i] < at[j]
    ensures forall k: nat :: k in at <==> k < |arrivals| && IsNews(items, arrivals, k)
    ensures |MergeAll(items, arrivals)| == |items| + |at| && MergeAll(items, arrivals)[..|items|] == items
    ensures forall i :: 0 <= i < |at| ==>
              at[i] < |arrivals| && MergeAll(items, arrivals)[|items| + i] == arrivals[at[i]]
  {
    at := [];
    if arrivals != [] {
      var front, last := arrivals[..|arrivals| - 1], |arrivals| - 1;
      at := MergeAllAppendsNews(items, front);
      MergeAllFacts(items, front);
      assert IsNews(items, arrivals, last) <==>
             !(Holds(MergeAll(items, front), arrivals[last].messageId) && arrivals[last].messageId != "");
      forall k: nat | k < last ensures IsNews(items, front, k) <==> IsNews(items, arrivals, k) {
        assert front[..k] == arrivals[..k] && front[k] == arrivals[k];
      }
      var earlier := at;
      if IsNews(items, arrivals, last) { at := at + [last]; }
      forall k: nat ensures k in at <==> k < |arrivals| && IsNews(items, arrivals, k) {
        assert k in at <==> k in earlier || (k == last && IsNews(items, arrivals, last));
      }
    }
  }

  /** How many arrivals carry no message id. */
  function Anonymous(items: seq<InboxItem>): nat {
    if items == [] then 0
    else Anonymous(items[..|items| - 1]) + if Last(items).messageId == "" then 1 else 0
  }

  lemma {:induction false} AnonymousConcat(items: seq<InboxItem>, arrivals: seq<InboxItem>)
    ensures Anonymous(MergeAll(items, arrivals)) == Anonymous(items) + Anonymous(arrivals)
  {
    if arrivals != [] {
      var before := MergeAll(items, arrivals[..|arrivals| - 1]);
      AnonymousConcat(items, arrivals[..|arrivals| - 1]);
      assert (before + [Last(arrivals)])[..|before|] == before;
    }
  }

  /** What an inbox holds does not depend on the order of arrival. */
  lemma ArrivalOrderIrrelevant(items: seq<InboxItem>, arrivals: seq<InboxItem>, reordered: seq<InboxItem>)
    requires multiset(arrivals) == multiset(reordered)
    ensures forall id :: Holds(MergeAll(items, arrivals), id) <==> Holds(MergeAll(items, reordered), id)
  {
    MergeAllFacts(items, arrivals);
    MergeAllFacts(items, reordered);
    forall id ensures Holds(arrivals, id) <==> Holds(reordered, id) {
      if Holds(arrivals, id) { SameMembersHold(arrivals, reordered, id); }
      if Holds(reordered, id) { SameMembersHold(reordered, arrivals, id); }
    }
  }

  lemma SameMembersHold(a: seq<InboxItem>, b: seq<InboxItem>, id: string)
    requires multiset(a) == multiset(b) && Holds(a, id)
    ensures Holds(b, id)
  {
    var k :| 0 <= k < |a| && a[k].messageId == id;
    assert a[k] in multiset(b);
    var j :| 0 <= j < |b| && b[j] == a[k];
  }

  lemma {:induction false} AllHeldIsNoOp(items: seq<InboxItem>, arrivals: seq<InboxItem>)
    requires forall x :: x in arrivals ==> x.messageId != "" && Holds(items, x.messageId)
    ensures MergeAll(items, arrivals) == items
  {
    if arrivals != [] {
      AllHeldIsNoOp(items, arrivals[..|arrivals| - 1]);
    }
  }

  lemma {:induction false} AnonymousZero(items: seq<InboxItem>)
    ensures Anonymous(items) == 0 <==> forall x :: x in items ==> x.messageId != ""
  {
    if items != [] {
      AnonymousZero(items[..|items| - 1]);
      assert items == items[..|items| - 1] + [Last(items)];
    }
  }

  /** Reading a transcript twice changes nothing exactly when every announcement has an id. */
  lemma ReingestIsNoOp(items: seq<InboxItem>, arrivals: seq<InboxItem>)
    ensures MergeAll(MergeAll(items, arrivals), arrivals) == MergeAll(items, arrivals) <==>
            forall x :: x in arrivals ==> x.messageId != ""
  {
    var once := MergeAll(items, arrivals);
    AnonymousZero(arrivals);
    AnonymousConcat(once, arrivals);
    if forall x :: x in arrivals ==> x.messageId != "" {
      MergeAllFacts(items, arrivals);
      forall x | x in arrivals ensures Holds(once, x.messageId) {
        var k :| 0 <= k < |arrivals| && arrivals[k] == x;
        assert Holds(arrivals, x.messageId);
      }
      AllHeldIsNoOp(once, arrivals);
    }
  }
}
