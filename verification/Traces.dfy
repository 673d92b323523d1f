/** What a run of the client leaves behind: the RPCs it sent and the steps that license,
    forbid or delay them, and a monitor that reads such a trace once. */
module Traces {
  import opened Basics

  const SEARCH_DEBOUNCE_MS: nat := 350

  /** The confirmations that guard a destructive RPC. */
  datatype Gate = SyncImport | SyncPull | WorktreeGc | PresetDelete

  datatype Rpc =
    | Connect
    | Keepalive
    | TasksCatalog
    | TaskCreate(title: string)
    | AgentList(taskId: Id)
    | AgentGet(agentId: Id)
    | AgentContext(agentId: Id)
    | AgentCreate(taskId: Id)
    | AgentCreateChild(taskId: Id, parentId: Id)
    | AgentCancel(agentId: Id)
    | AgentSend(agentId: Id, content: string)
    | AgentSteer(agentId: Id, content: string)
    | ApprovalRespond(approvalId: Id, decision: string)
    | A2aDeliver(from: Id, to: Id, content: string)
    | FilesTree(path: string)
    | AgentSwitch(agentId: Id)
    | AgentUpdateRole(agentId: Id)
    | WorkspaceAdd(path: string)
    | TaskRename(taskId: Id, title: string)
    | TaskArchive(taskId: Id)
    | SyncExport
    | SyncPush
    | PresetCreate
    | PresetUpdate(presetId: Id)
    | SearchQuery(q: string)
    | Guarded(gate: Gate)

  datatype Obs =
    | Sent(rpc: Rpc)
    | Requested(gate: Gate)      // the confirmation was opened
    | Withdrawn(gate: Gate)      // the user cancelled it
    | Confirmed(gate: Gate)      // the user confirmed it while it was open
    | CancelStarted(agentId: Id) // a cancel worker was spawned
    | CancelEnded(agentId: Id)   // its result was applied
    | Edited(at: nat)            // the search text was edited
    | Debounced(at: nat)         // the debounce tick submitted the search
    | Cleared                    // the search was dismissed, or submitted blank

  type Trace = seq<Obs>

  // ------------------------------------------------------------ the monitor

  datatype Flags = Flags(syncImport: bool, syncPull: bool, worktreeGc: bool, presetDelete: bool)

  const NoFlags := Flags(false, false, false, false)

  predicate Has(f: Flags, g: Gate) {
    match g
    case SyncImport => f.syncImport
    case SyncPull => f.syncPull
    case WorktreeGc => f.worktreeGc
    case PresetDelete => f.presetDelete
  }

  function Put(f: Flags, g: Gate, b: bool): (r: Flags)
    ensures forall x :: Has(r, x) == if x == g then b else Has(f, x)
  {
    match g
    case SyncImport => f.(syncImport := b)
    case SyncPull => f.(syncPull := b)
    case WorktreeGc => f.(worktreeGc := b)
    case PresetDelete => f.(presetDelete := b)
  }

  /** licensed: requested since the last withdrawal or confirmation; spendable: confirmed
      under a license and not yet used; guarded: the guarded RPCs so far, in order; the rest
      is what the names say. */
  datatype Monitor = Monitor(licensed: Flags, spendable: Flags, guarded: seq<Gate>, cancelling: Option<Id>,
                             lastQuery: Option<string>, lastEdit: Option<nat>, lawful: bool)

  const Fresh := Monitor(NoFlags, NoFlags, [], None, None, None, true)

  function Observe(m: Monitor, o: Obs): Monitor {
    match o
    case Requested(g) => m.(licensed := Put(m.licensed, g, true), spendable := Put(m.spendable, g, false))
    case Withdrawn(g) => m.(licensed := Put(m.licensed, g, false), spendable := Put(m.spendable, g, false))
    case Confirmed(g) => m.(licensed := Put(m.licensed, g, false), spendable := Put(m.spendable, g, Has(m.licensed, g)))
    case CancelStarted(a) => m.(cancelling := Some(a), lawful := m.lawful && m.cancelling.None?)
    case CancelEnded(a) => m.(cancelling := None, lawful := m.lawful && m.cancelling == Some(a))
    case Edited(at) => m.(lastEdit := Some(at))
    case Debounced(at) =>
      m.(lastEdit := None,
         lawful := m.lawful && m.lastEdit.Some? && m.lastEdit.value + SEARCH_DEBOUNCE_MS <= at)
    case Cleared => m.(lastQuery := None)
    case Sent(rpc) =>
      match rpc
      case Guarded(g) =>
        m.(spendable := Put(m.spendable, g, false), guarded := m.guarded + [g],
           lawful := m.lawful && Has(m.spendable, g))
      case SearchQuery(q) => m.(lastQuery := Some(q), lawful := m.lawful && m.lastQuery != Some(q))
      case AgentSend(_, _) => m.(lawful := m.lawful && m.cancelling.None?)
      case AgentSteer(_, _) => m.(lawful := m.lawful && m.cancelling.None?)
      case _ => m
  }

  function Mon(t: Trace): Monitor {
    if t == [] then Fresh else Observe(Mon(t[..|t| - 1]), Last(t))
  }

  /** The RPCs of a trace, in order. */
  function Rpcs(t: Trace): seq<Rpc> {
    if t == [] then [] else Rpcs(t[..|t| - 1]) + if Last(t).Sent? then [Last(t).rpc] else []
  }

  lemma OneMore(t: Trace, o: Obs)
    ensures Mon(t + [o]) == Observe(Mon(t), o)
    ensures Rpcs(t + [o]) == Rpcs(t) + if o.Sent? then [o.rpc] else []
  {
    assert (t + [o])[..|t|] == t;
  }

  ghost predicate Lawful(t: Trace) {
    Mon(t).lawful
  }

  lemma {:induction false} LawfulPrefix(t: Trace, n: nat)
    requires Lawful(t) && n <= |t|
    ensures Lawful(t[..n])
  {
    if n < |t| {
      LawfulPrefix(t[..|t| - 1], n);
      assert t[..|t| - 1][..n] == t[..n];
    } else {
      assert t[..n] == t;
    }
  }

  /** What the monitor saw at position i. */
  lemma LawfulAt(t: Trace, i: nat)
    requires Lawful(t) && i < |t|
    ensures Lawful(t[..i]) && Observe(Mon(t[..i]), t[i]).lawful
  {
    LawfulPrefix(t, i);
    LawfulPrefix(t, i + 1);
    assert t[..i + 1] == t[..i] + [t[i]];
    OneMore(t[..i], t[i]);
  }

  // ------------------------------------------------------------ gates

  predicate Concerns(o: Obs, g: Gate) {
    o in {Requested(g), Withdrawn(g), Confirmed(g), Sent(Guarded(g))}
  }

  lemma {:induction false} LicensedMeans(t: Trace, g: Gate) returns (j: nat)
    requires Has(Mon(t).licensed, g)
    ensures j < |t| && t[j] == Requested(g)
    ensures forall k :: j < k < |t| ==> t[k] != Withdrawn(g) && t[k] != Confirmed(g)
  {
    if Last(t) == Requested(g) {
      j := |t| - 1;
    } else {
      j := LicensedMeans(t[..|t| - 1], g);
      assert forall k :: j < k < |t| - 1 ==> t[k] == t[..|t| - 1][k];
    }
  }

  /** A spendable confirmation was just given, or is left from before. */
  lemma ObserveSpendable(m: Monitor, o: Obs, g: Gate)
    requires Has(Observe(m, o).spendable, g)
    ensures if o == Confirmed(g) then Has(m.licensed, g) else Has(m.spendable, g) && !Concerns(o, g)
  {
  }

  lemma {:induction false} SpendableMeans(t: Trace, g: Gate) returns (c: nat)
    requires Has(Mon(t).spendable, g)
    ensures c < |t| && t[c] == Confirmed(g) && Has(Mon(t[..c]).licensed, g)
    ensures forall k :: c < k < |t| ==> !Concerns(t[k], g)
  {
    hide Observe;
    hide Concerns;
    assert t != [];
    var front := t[..|t| - 1];
    ObserveSpendable(Mon(front), Last(t), g);
    if Last(t) == Confirmed(g) {
      c := |t| - 1;
    } else {
      c := SpendableMeans(front, g);
      assert front[..c] == t[..c];
      assert forall k :: c < k < |t| - 1 ==> t[k] == front[k];
    }
  }

  /** Every guarded RPC answers its own request: it follows a confirmation, which follows a
      request, with no withdrawal or other confirmation after the request, and nothing else
      about the gate after the confirmation. */
  lemma GuardedRpcIsLicensed(t: Trace, g: Gate, i: nat) returns (j: nat, c: nat)
    requires Lawful(t) && i < |t| && t[i] == Sent(Guarded(g))
    ensures j < c < i && t[j] == Requested(g) && t[c] == Confirmed(g)
    ensures forall k :: j < k < c ==> t[k] != Withdrawn(g) && t[k] != Confirmed(g)
    ensures forall k :: c < k < i ==> !Concerns(t[k], g)
  {
    LawfulAt(t, i);
    c := SpendableMeans(t[..i], g);
    assert t[..i][..c] == t[..c];
    j := LicensedMeans(t[..c], g);
  }

  function Count(t: Trace, o: Obs): nat {
    if t == [] then 0 else Count(t[..|t| - 1], o) + if Last(t) == o then 1 else 0
  }

  lemma {:induction false} CountBound(t: Trace, g: Gate)
    requires Lawful(t)
    ensures Count(t, Sent(Guarded(g)))
            + (if Has(Mon(t).licensed, g) then 1 else 0) + (if Has(Mon(t).spendable, g) then 1 else 0)
            <= Count(t, Requested(g))
  {
    if t != [] {
      var front := t[..|t| - 1];
      LawfulAt(t, |t| - 1);
      CountBound(front, g);
    }
  }

  /** One request licenses at most one RPC. */
  lemma OneRpcPerRequest(t: Trace, g: Gate)
    requires Lawful(t)
    ensures Count(t, Sent(Guarded(g))) <= Count(t, Requested(g))
  {
    CountBound(t, g);
  }

  // ------------------------------------------------------------ cancelling

  lemma {:induction false} CancellingMeans(t: Trace, i: nat, a: Id)
    requires Lawful(t) && i < |t| && t[i] == CancelStarted(a)
    requires forall k, b :: i < k < |t| ==> t[k] != CancelEnded(b)
    ensures Mon(t).cancelling == Some(a)
  {
    var front := t[..|t| - 1];
    if i < |t| - 1 {
      LawfulAt(t, |t| - 1);
      assert forall k :: 0 <= k < |front| ==> front[k] == t[k];
      CancellingMeans(front, i, a);
      assert t[|t| - 1] == Last(t);
    }
  }

  /** Between the start of a cancellation and its end nothing is sent or steered, and no
      other cancellation starts. */
  lemma NothingSentWhileCancelling(t: Trace, i: nat, k: nat, a: Id)
    requires Lawful(t) && i < k < |t| && t[i] == CancelStarted(a)
    requires forall x, b :: i < x < k ==> t[x] != CancelEnded(b)
    ensures !(t[k].Sent? && (t[k].rpc.AgentSend? || t[k].rpc.AgentSteer?)) && !t[k].CancelStarted?
    ensures t[k].CancelEnded? ==> t[k] == CancelEnded(a)
  {
    LawfulAt(t, k);
    CancellingMeans(t[..k], i, a);
  }

  // ------------------------------------------------------------ searching

  lemma {:induction false} LastQueryMeans(t: Trace, i: nat, q: string)
    requires i < |t| && t[i] == Sent(SearchQuery(q))
    requires forall k :: i < k < |t| ==> t[k] != Cleared && !(t[k].Sent? && t[k].rpc.SearchQuery?)
    ensures Mon(t).lastQuery == Some(q)
  {
    var front := t[..|t| - 1];
    if i < |t| - 1 {
      assert forall k :: 0 <= k < |front| ==> front[k] == t[k];
      LastQueryMeans(front, i, q);
      assert t[|t| - 1] == Last(t);
    }
  }

  /** Two successive queries for the same text have a dismissal or a blank submit between them. */
  lemma RepeatedQueryWasCleared(t: Trace, i: nat, j: nat, q: string)
    requires Lawful(t) && i < j < |t| && t[i] == t[j] == Sent(SearchQuery(q))
    requires forall k :: i < k < j ==> !(t[k].Sent? && t[k].rpc.SearchQuery?)
    ensures exists k :: i < k < j && t[k] == Cleared
  {
    LawfulAt(t, j);
    if forall k :: i < k < j ==> t[k] != Cleared {
      LastQueryMeans(t[..j], i, q);
    }
  }

  lemma {:induction false} LastEditMeans(t: Trace, at: nat) returns (e: nat)
    requires Mon(t).lastEdit == Some(at)
    ensures e < |t| && t[e] == Edited(at)
    ensures forall k :: e < k < |t| ==> !t[k].Edited? && !t[k].Debounced?
  {
    if Last(t) == Edited(at) {
      e := |t| - 1;
    } else {
      e := LastEditMeans(t[..|t| - 1], at);
      assert forall k :: e < k < |t| - 1 ==> t[k] == t[..|t| - 1][k];
    }
  }

  /** Every debounced submit answers the last edit, at least 350 ms after it, and is the
      only one to do so. */
  lemma DebounceAnswersLastEdit(t: Trace, i: nat, at: nat) returns (e: nat)
    requires Lawful(t) && i < |t| && t[i] == Debounced(at)
    ensures e < i && t[e].Edited? && t[e].at + SEARCH_DEBOUNCE_MS <= at
    ensures forall k :: e < k < i ==> !t[k].Edited? && !t[k].Debounced?
  {
    LawfulAt(t, i);
    e := LastEditMeans(t[..i], Mon(t[..i]).lastEdit.value);
  }
}
