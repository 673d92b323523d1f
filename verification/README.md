# A verified model of the RustTraycer desktop client

RustTraycer is a desktop client and a command line tool for a host that runs coding agents.
This project states in Dafny what the two do where they do more than plumbing, and proves it
for all inputs, all runs and all answers of the host.

| file | what it models |
|---|---|
| `Basics`, `Text`, `LineSplit` | shared vocabulary: sequences without repeats, the string functions used, splitting a text into lines |
| `Forest`, `ForestFacts` | the two-pass construction of a forest from a flat list with parent pointers, and the theory of the result |
| `Agents`, `Artifacts` | its two uses: the conversation tree of agents and the filtered tree of artifacts |
| `A2a` | the agent-to-agent line format and the inbox |
| `TabOrder` | the draggable order of agent tabs |
| `LogFollower` | the tail of the host's log and the loop that follows the file |
| `Metrics` | the Prometheus reader behind the status chip |
| `Hooks` | the validator of `hooks.json` and its save operation |
| `PeerUrl` | host extraction and the rules for sync peers |
| `Traces` | what a run leaves behind (RPCs sent, confirmations asked, cancels started) and a monitor that says which traces are lawful |
| `AppModel` | the client's state and one step function per command, tick and host event |
| `AppRuns` | the invariants of every reachable state |
| `Commands` | which command RPC a step sends, and exactly when |
| `Effects` | what each kind of step leaves behind, said of the state before and after it |
| `RunFacts`, `Exchange`, `TabMemory`, `TabBarFacts`, `Deletion`, `HonestHost` | what follows for steps and whole runs |
| `AppState` | the client as an object whose methods change its fields in place, each method proved against its step function |

A run starts in `AppModel.Initial` and is any sequence of events, each with a `Host` value that
says how the host would answer every RPC of that step. Theorems about `Run(Initial, events)`
therefore hold for every interleaving of user commands, cancel workers, ticks and host events,
and for every behaviour of the host. The object in `AppState` keeps the program's fields grouped
into records (`conn`, `tabs`, `cancel`, `search`, ...); `View()` is the state they stand for. Every
method equates its new `View()` with a step function, and `Handle`, which calls them all, shows that
whatever the object does is what the model does; the table below names only the methods with loops
or with more to say.

## Findings

Where the code promises less than one might expect, lemmas give an input and the exact condition:

- A list in which one id is both a root and its own child makes the tree recursion endless
  (`ForestFacts.RepeatedIdCanBeEndless`). It ends if and only if no chain from a root revisits an
  id (`ForestFacts.ForestExistsIffNoRevisit`); distinct ids are enough, cycles or not.
- An agent whose id is empty or not trimmed cannot be dragged. Then some orders of the tab bar
  cannot be reached (`TabOrder.UndraggableBlocks`, `TabOrder.EveryOrderReachable`), and a drop
  across such an agent cannot be undone by one more (`TabOrder.UndoIffNeighbourDraggable`).
- A host list that repeats an id can put a duplicate into the stored tab order
  (`TabOrder.RepeatedIdIsStoredTwice`, `TabOrder.DropDistinctIff`, over runs
  `RunFacts.OrderStaysDistinctIff`).
- After an agent is deleted, the transcript read next can bring it back into the inbox
  (`Deletion.DeletedCanBeMentionedAgain`, `Deletion.DeletedIsMentionedIff`).
- A CR LF pair in the lines chosen for the tail of a log can make the tail no suffix of it
  (`LogFollower.CrLfTailIsNoSuffix`, `LogFollower.TailIsRegionIff`, `LogFollower.TailIsSuffixIff`),
  and two carriage returns before a line feed make its lines differ from the chosen ones
  (`LogFollower.CrCrLfTailDiffers`, `LogFollower.TailIsLastLines`).
- A replacement of the log that is at least as long as what was consumed goes unnoticed
  (`LogFollower.ShowsFromStartIff`).
- A closing brace in a label value, which text format 0.0.4 allows, makes the metrics reader ignore
  the value that is written (`Metrics.BraceInLabelMisreads`,
  `Metrics.LabelledReadsBackIff`); and a body that ends in the middle of a line does not combine
  with what follows (`Metrics.ConcatCombinesIff`).
- Reading a transcript again changes nothing if and only if every announced message has an id
  (`A2a.ReingestIsNoOp`).

## Model

| member | source | states |
|---|---|---|
| Forest.Walk | crates/rt-gui/src/a2a.rs:77-90 | the recursion ends whenever no chain from a root revisits an id (measure: entries not on the path from the root), and its node has exactly the listed children at every depth, in the order `Forest.ForestIsInListOrder` makes explicit |
| Forest.BucketByParent | crates/rt-gui/src/a2a.rs:61-76 | one pass yields for every listed parent exactly the entries pointing to it, by increasing position, and so the entries without a listed parent |
| Forest.Build | crates/rt-gui/src/a2a.rs:61-91 | for distinct ids, cyclic pointers included, both passes end with a forest that shows at every node exactly the entries hanging below it and at the top those without a listed parent, siblings and roots at strictly increasing positions of the list |
| Forest.ForestIsInListOrder | crates/rt-gui/src/a2a.rs:61-91 | for any list, repeated ids included, something is a forest of it if and only if it shows, at the top and at every node, exactly the entries that hang there, by strictly increasing positions |
| Forest.ForestAscends | crates/rt-gui/src/a2a.rs:61-91 | with distinct ids roots and siblings stand in the order of the list at every depth |
| Forest.DistinctIdsNeverRevisit | crates/rt-gui/src/a2a.rs:61-91 | with distinct ids no chain of parent links from a root comes back to an id |
| ForestFacts.ForestIsUnique | crates/rt-gui/src/a2a.rs:61-91 | a list has at most one forest: root order, sibling order and every edge are determined |
| ForestFacts.ShownIffReachable | crates/rt-gui/src/a2a.rs:61-91 | an id is shown if and only if its parent chain reaches a root |
| ForestFacts.ShownOnce | crates/rt-gui/src/a2a.rs:61-91 | no id is shown twice |
| ForestFacts.PermutationIffAcyclic | crates/rt-gui/src/a2a.rs:61-91 | the flattened forest is a permutation of the whole list if and only if the parent links have no cycle |
| ForestFacts.EdgesAreShownLinks | crates/rt-gui/src/a2a.rs:61-91 | the edges are the parent links whose upper end is shown, and no others |
| ForestFacts.ForestExistsIffNoRevisit | crates/rt-gui/src/a2a.rs:77-90 | for any list, repeated ids included, a finite result exists if and only if no chain from a root revisits an id |
| ForestFacts.RepeatedIdCanBeEndless | crates/rt-gui/src/a2a.rs:77-90 | two entries with one id, a root and its own child, have no finite result |
| ForestFacts.DanglingPointersDoNotMatter | crates/rt-gui/src/a2a.rs:61-90 | lists that differ only in pointers to nothing listed, or none, have the same forests, and one is acyclic if and only if the other is |
| ForestFacts.RemoveKeepsAcyclic | crates/rt-gui/src/state.rs:3200-3206 | removing an entry and clearing the pointers to it creates no cycle |
| ForestFacts.RemoveHidesNoSurvivor | crates/rt-gui/src/state.rs:3200-3206 | every node of the old forest but the removed one is in the new forest with its subtree less the removed branch |
| ForestFacts.RemovePromotesChildren | crates/rt-gui/src/state.rs:3200-3206 | the children of the removed node become roots with their subtrees unchanged |
| Agents.BuildAgentTree | crates/rt-gui/src/a2a.rs:61-91 | for agents with distinct ids the result is the forest of their parent pointers, roots and siblings in the order of the list |
| Agents.WithoutInOrder | crates/rt-gui/src/state.rs:3200-3206 | the agents left by a deletion stay in their order and as they are, but that pointers to the deleted one are cleared |
| Agents.WithoutEntries | crates/rt-gui/src/state.rs:3200-3206 | dropping an agent from the client's list removes its entry from the list the tree is built over and clears the pointers to it |
| Agents.DeletionHidesNobody | crates/rt-gui/src/state.rs:3200-3206 | all of the above for the agent tree before and after a deletion |
| Artifacts.BuildTree | crates/rt-gui/src/artifacts.rs:233-267 | if the artifacts that pass the filters have distinct ids, the result is their forest, roots and siblings in list order; others may repeat ids |
| Artifacts.VisibleDistinct | crates/rt-gui/src/artifacts.rs:218-230 | ids distinct in the whole list are distinct under every filter |
| Artifacts.MatchesFilterMeaning | crates/rt-gui/src/artifacts.rs:218-230 | an artifact passes if and only if each filter is open or names its kind or status |
| Artifacts.OpenFiltersAgree | crates/rt-gui/src/artifacts.rs:218-230 | no filter, the empty one and the "all" entry let the same artifacts through |
| Artifacts.RootIffParentNotVisible | crates/rt-gui/src/artifacts.rs:233-267 | an artifact is a root if and only if it is visible and its parent is absent, missing or filtered out |
| Artifacts.CompleteIffAcyclic | crates/rt-gui/src/artifacts.rs:233-267 | every visible artifact is shown exactly once if and only if the visible parent links have no cycle |
| Artifacts.EdgeIffBothVisible | crates/rt-gui/src/artifacts.rs:233-267 | then an edge is there if and only if it is a parent link with both ends visible |
| A2a.ParseInvertsPrint | crates/rt-gui/src/a2a.rs:114-122 | parsing undoes printing, for every body, if and only if the sender is non-empty and has no newline |
| A2a.PrintInvertsParse | crates/rt-gui/src/a2a.rs:114-122 | what parses is what printing gives back, up to the newline a bodiless line may lack |
| A2a.AnnouncedInOrder | crates/rt-gui/src/a2a.rs:114-140 | a transcript announces one item for each system message that carries a sender, in order, with the message's id, sender and body |
| A2a.MergeAllFacts | crates/rt-gui/src/a2a.rs:142-150 | merging only appends, keeps every non-empty message id unique, and yields exactly the ids of both sides |
| A2a.MergeAllAddsNews | crates/rt-gui/src/a2a.rs:142-150 | an inbox gains exactly the arrivals whose id is empty or seen for the first time, so the first content stays |
| A2a.MergeAllAppendsNews | crates/rt-gui/src/a2a.rs:142-150 | these stand behind what was there, in the order of arrival |
| A2a.ArrivalOrderIrrelevant | crates/rt-gui/src/a2a.rs:142-150 | permuting arrivals does not change the set of ids held |
| A2a.ReingestIsNoOp | crates/rt-gui/src/state.rs:3140-3148 | reading a transcript twice equals reading it once if and only if every announced message has an id |
| TabOrder.OrderedByPositions | crates/rt-gui/src/state.rs:4885-4901 | for any order and list, first come the listed ids the order names, by increasing position in it, then the others, by increasing position in the list |
| TabOrder.ShownBeforeIff | crates/rt-gui/src/state.rs:4885-4901 | of two shown ids the one the order names comes first; of two named ones the earlier in the order; of two others the earlier in the list |
| TabOrder.OrderedIsPermutationIff | crates/rt-gui/src/state.rs:4885-4901 | for any list, repeated ids included, the displayed order is a permutation of it if and only if the stored order names no id the list repeats |
| TabOrder.DropDistinctIff | crates/rt-gui/src/state.rs:4903-4926 | for any list, repeated ids included, a drop leaves no duplicate in the stored order if and only if an id is blank, both name the same agent, the tile is not listed, or the listed ids the order does not name are distinct |
| TabOrder.IgnoredDrop | crates/rt-gui/src/state.rs:4903-4926 | in the first three of these cases the stored order stays as it is |
| TabOrder.RepeatedIdIsStoredTwice | crates/rt-gui/src/state.rs:4903-4926 | a list with a repeated id and a drop that stores that id twice |
| TabOrder.DropPlacesAndKeepsOthers | crates/rt-gui/src/state.rs:4903-4926 | the dragged agent takes the tile's former place, the others keep their relative order, nobody appears or disappears |
| TabOrder.DropStores | crates/rt-gui/src/state.rs:4903-4926 | any drop that is not ignored, of an agent not listed too, stores the displayed order with the dragged agent at the tile's place and the others in their order |
| TabOrder.OtherDropsShowNothing | crates/rt-gui/src/state.rs:4903-4926 | a drop that names no two different listed agents leaves the displayed order as it is |
| TabOrder.UndoIffNeighbourDraggable | crates/rt-gui/src/state.rs:4903-4926 | one more drop undoes a drop if and only if the dragged agent's neighbour on the side it moved to has an id a drop can name |
| TabOrder.DropCanBeUndone | crates/rt-gui/src/state.rs:4903-4926 | hence among agents that can all be dragged one more drop undoes any drop |
| TabOrder.DraggableReachesAll | crates/rt-gui/src/state.rs:4903-4926 | if every id is non-empty and trimmed, finitely many drops show any given permutation |
| TabOrder.UndraggableBlocks | crates/rt-gui/src/state.rs:4903-4909 | with one other id among several, some permutation is unreachable from some order |
| TabOrder.EveryOrderReachable | crates/rt-gui/src/state.rs:4885-4926 | every order is reachable from every order if and only if all ids can be dragged or there is at most one |
| LineSplit.JoinOfLines | crates/rt-cli/src/lib.rs:421-429 | joining the lines of a text gives it back, carriage returns before line feeds aside |
| LineSplit.LinesOfJoin | crates/rt-cli/src/lib.rs:421-429 | splitting joined lines gives the lines back if and only if none that a line feed follows ends in a carriage return |
| LogFollower.TailIsSuffix | crates/rt-cli/src/lib.rs:421-429 | the tail is a suffix of the text with CR LF read as LF |
| LogFollower.TailIsRegionIff | crates/rt-cli/src/lib.rs:421-429 | the tail is the text from the first chosen line on if and only if that part has no CR LF pair and is not a single empty line |
| LogFollower.TailIsSuffixIff | crates/rt-cli/src/lib.rs:421-429 | the tail is a suffix of the text if and only if the text from the first chosen line on is a single empty line, or has no CR LF pair, or one with nothing but carriage returns before it |
| LogFollower.ChosenAreLast | crates/rt-cli/src/lib.rs:421-429 | the chosen lines are the last n of the text, or all if there are fewer |
| LogFollower.TailIsLastLines | crates/rt-cli/src/lib.rs:421-429 | the lines of the tail are the last n of the text, or all if there are fewer, if and only if these are not a single empty line and no line feed from the first of them on has two carriage returns before it |
| LogFollower.CrCrLfTailDiffers | crates/rt-cli/src/lib.rs:421-429 | a text whose tail has another last line than the text |
| LogFollower.CrLfTailIsNoSuffix | crates/rt-cli/src/lib.rs:421-429 | a text with CR LF whose tail is no suffix of it |
| LogFollower.FollowLogTo | crates/rt-cli/src/lib.rs:467-514 | the loop writes the initial tail and then, poll by poll, what each poll yields, and reports failure only for an unreadable file |
| LogFollower.FailsIff | crates/rt-cli/src/lib.rs:467-514 | following fails if and only if the file exists at some time and the first read or a later poll cannot be made |
| LogFollower.FailureEnds | crates/rt-cli/src/lib.rs:467-514 | after a failure nothing more is written |
| LogFollower.FollowingLosesNothing | crates/rt-cli/src/lib.rs:447-514 | while the file only grows, the output grows by exactly the appended bytes and the offset is the number of bytes consumed |
| LogFollower.FollowerShowsTheLog | crates/rt-cli/src/lib.rs:467-514 | a whole run on an append-only log: the initial tail, then every appended byte once; a suffix of the final file if and only if the tail was a suffix of the first read, by the condition above |
| LogFollower.RestartShowsWholeFile | crates/rt-cli/src/lib.rs:447-514 | after a poll that sees a shorter or missing file the new content is written from its first byte, and again nothing is lost |
| LogFollower.ShowsFromStartIff | crates/rt-cli/src/lib.rs:447-456 | a poll shows the file from its first byte if and only if nothing was consumed or the file was seen shorter |
| Metrics.ParsePrometheus | crates/rt-gui/src/metrics.rs:119-147 | the saturating fold computes, per kind, the sum of all samples capped at the largest u64, or the latest sample, or none; `Metrics.BodyReadsBack` says which names are of which kind |
| Metrics.KindIsRead | crates/rt-gui/src/metrics.rs:119-147 | which field a sample fills, by its name, for every value, labelled or not, and that it fills no other; any other name fills none |
| Metrics.BodyReadsBack | crates/rt-gui/src/metrics.rs:119-180 | for a body of any samples the agents and the RPCs are the sums of the values so named, capped at the largest u64, and the memory is the last value so named |
| Metrics.CommentsAreIgnored | crates/rt-gui/src/metrics.rs:119-134 | blank lines and lines that start with a hash, blanks aside, count for nothing wherever they stand |
| Metrics.OtherValuesAreRead | crates/rt-gui/src/metrics.rs:161-180 | a plus sign before the digits is accepted; a word that is no u64 counts as what the float conversion makes of it, or not at all |
| Metrics.ConcatCombinesIff | crates/rt-gui/src/metrics.rs:119-147 | a body combines with every body that may follow it if and only if it does not end in the middle of a line, blanks aside |
| Metrics.LineOrderIrrelevant | crates/rt-gui/src/metrics.rs:119-147 | permuting the lines changes neither sum |
| Metrics.PlainReadsBack | crates/rt-gui/src/metrics.rs:149-180 | a sample written without labels is read back, for every name and every u64 |
| Metrics.LabelledReadsBackIff | crates/rt-gui/src/metrics.rs:149-180 | a labelled sample is read back, whatever its value, if and only if no label holds a closing brace |
| Metrics.BraceInLabelMisreads | crates/rt-gui/src/metrics.rs:149-159 | a closing brace followed by a number inside a label makes that number the value read |
| Hooks.CheckReportsFirstOffence | crates/rt-gui/src/hooks.rs:63-87 | the error is that of the first offence in traversal order |
| Hooks.CheckStopsAtFirst | crates/rt-gui/src/hooks.rs:63-87 | items and entries are gone through from first to last, in an entry the key before the value, and the first error ends the check; strings and nulls have none, other leaves are invalid |
| Hooks.AcceptedIffClean | crates/rt-gui/src/hooks.rs:63-87 | a value is accepted if and only if no object at any depth has a forbidden key and every leaf is a string or null |
| Hooks.ForbiddenIgnoresCase | crates/rt-gui/src/hooks.rs:89-92 | keys that differ only in ASCII case are forbidden together |
| Hooks.ForbiddenIffSpelled | crates/rt-gui/src/hooks.rs:89-92 | a key is forbidden if and only if it spells one of the seven words in some case |
| Hooks.HooksFile.Save | crates/rt-gui/src/hooks.rs:103-112 | an invalid text leaves the file alone; a successful save leaves exactly the text, or an empty object for a blank one |
| Hooks.SavedFileValidates | crates/rt-gui/src/hooks.rs:54-112 | what a successful save leaves behind passes validation again |
| PeerUrl.NamedHostIsFound | crates/rt-cli/src/sync.rs:109-148 | the host of scheme, name and optional port is found whatever credential-free path, query or fragment follows |
| PeerUrl.BracketedHostIsFound | crates/rt-cli/src/sync.rs:109-148 | so is a bracketed address (section 3.2 of RFC 3986) |
| PeerUrl.CredentialsAreRefused | crates/rt-cli/src/sync.rs:94-148 | a URL with an at sign is invalid |
| PeerUrl.DomainIffLabels | crates/rt-cli/src/sync.rs:150-156 | a name is a domain or below it if and only if its last labels are the domain's |
| PeerUrl.ForbiddenIffCloudDomain | crates/rt-cli/src/sync.rs:94-156 | a peer is forbidden if and only if the labels of its canonical host, bracketed hosts included, end in one of the two cloud domains; `PeerUrl.ForbiddenIffSpelled` says it of the host as written |
| PeerUrl.ForbiddenIffSpelled | crates/rt-cli/src/sync.rs:94-156 | for every scheme, named host, number of trailing dots, port and tail: forbidden if the last two labels of the name spell traycer.ai or traycer.com in any case, accepted otherwise |
| PeerUrl.CaseAndDotsDoNotMatter | crates/rt-cli/src/sync.rs:94-156 | hosts that differ only in ASCII case or trailing dots get the same verdict |
| PeerUrl.SchemeIsRequired | crates/rt-cli/src/sync.rs:94-148 | without http:// or https:// a peer is invalid |
| Traces.GuardedRpcIsLicensed | crates/rt-gui/src/state.rs:3851-3942 | in a lawful trace a guarded RPC follows its confirmation, which follows its own request with no withdrawal or other confirmation between |
| Traces.OneRpcPerRequest | crates/rt-gui/src/state.rs:3851-3942 | in a lawful trace a gate has no more RPCs than requests |
| Traces.NothingSentWhileCancelling | crates/rt-gui/src/state.rs:1814-1921 | in a lawful trace nothing is sent, steered or cancelled between the start of a cancel and its end |
| Traces.RepeatedQueryWasCleared | crates/rt-gui/src/state.rs:4182-4225 | in a lawful trace two successive equal queries have a dismissal or blank submit between them |
| Traces.DebounceAnswersLastEdit | crates/rt-gui/src/state.rs:4172-4180 | in a lawful trace a debounced submit comes at least 350 ms after the last edit and is the only one to answer it |
| AppRuns.StepKeeps | crates/rt-gui/src/state.rs:621-4926 | every command, tick and event that writes the modelled fields keeps all the invariants together, whatever the host answers |
| AppRuns.EveryRunIsOk | crates/rt-gui/src/state.rs:621-4926 | all of them hold in every reachable state, and every trace a run leaves is lawful |
| RunFacts.OnlineHasItsToken | crates/rt-gui/src/state.rs:714-790 | in every reachable state Online means a session whose own token is stored, and Offline means no session, no token and no bridge |
| RunFacts.TabsAgree | crates/rt-gui/src/state.rs:1172-1218 | in every reachable state open tabs are distinct, the selected task is open, a canvas shows a selected task, remembered agents belong to open tabs, and every approval is keyed by its own agent and belongs to an open tab |
| RunFacts.PendingIffOutstanding | crates/rt-gui/src/state.rs:660-706 | in every reachable state at most one cancel is outstanding, and a cancel of an agent is pending if and only if a worker or queued result for that agent is |
| RunFacts.PopupIffRan | crates/rt-gui/src/state.rs:4182-4271 | in every reachable state the popup is open if and only if a search ran, if and only if its query is stored |
| RunFacts.InboxHoldsIdsOnce | crates/rt-gui/src/a2a.rs:142-150 | in every reachable state each non-empty message id is in the inbox at most once |
| AppRuns.CloseKeeps | crates/rt-gui/src/state.rs:1196-1211 | closing any tab, the selected one included, keeps the tab invariants |
| AppRuns.TickKeeps | crates/rt-gui/src/state.rs:660-706 | a tick ends the one cancel whose result is queued, for any answer, and leaves a cancel without a result pending |
| RunFacts.ConfirmStep | crates/rt-gui/src/state.rs:3873-3942 | confirming closes its gate and no other, and sends at most the one RPC it guards, only if the gate was open |
| RunFacts.StepIsFramed | crates/rt-gui/src/state.rs:1172-4926 | apart from discovery, gates, forms, cancel workers and drags no step touches connection, gates or tab order, sends a guarded RPC, or sends anything without a session |
| RunFacts.OnlyConfirmationsSend | crates/rt-gui/src/state.rs:3851-4667 | of all gate steps only the confirmation of an open gate sends a guarded RPC, exactly one, for its own gate; and only a request opens a gate |
| RunFacts.OpenGateWasRequested | crates/rt-gui/src/state.rs:3851-4667 | in every run an open gate has a request with no withdrawal or confirmation since |
| RunFacts.GuardedRpcAnswersItsRequest | crates/rt-gui/src/state.rs:3851-4667 | in every run a step that sends `sync.import`, `sync.pull`, `worktree.gc` or `preset.delete` is a confirmation, sends it once, and answers a request with no withdrawal or confirmation since |
| RunFacts.AnImportCanHappen | crates/rt-gui/src/state.rs:3851-3942 | a run that does send an import |
| RunFacts.SilentWithoutSession | crates/rt-gui/src/state.rs:621-4926 | without a session no step but a discovery or a late cancel answer sends an RPC |
| RunFacts.OfflineIsSilent | crates/rt-gui/src/state.rs:714-790 | in every run the same holds while the host is shown as offline |
| RunFacts.EnterSendsAtMostOne | crates/rt-gui/src/state.rs:1838-1921 | one mod-Enter sends nothing, or one trimmed non-empty message to the shown agent: a steer if it runs, else a send, and never while a cancel is pending |
| Commands.StepSends | crates/rt-gui/src/state.rs:621-4926 | every step sends at most one RPC other than the four that only read, and exactly the one that a condition on the event and the state before, one per RPC, asks for |
| Commands.CommandsAreAskedFor | crates/rt-gui/src/state.rs:621-4926 | in every run these RPCs match, one to one and in order, the events that ask for them |
| Effects.ShownAgentIs | crates/rt-gui/src/state.rs:1112-1120 | shown is the first agent of the selected task with the selected id, else the first of the task, else nobody |
| Effects.OpenShows | crates/rt-gui/src/state.rs:1172-1320 | opening shows the task on the canvas, appends a tab if it had none, puts the host's list in place of the old one, selects the remembered agent if listed and else the first, reads that agent and its transcript, and forgets the directories |
| Effects.CloseShowsLast | crates/rt-gui/src/state.rs:1196-1211 | closing the shown tab shows the last one left, or the task list when none is; closing another changes nothing shown |
| Effects.SwitchOpens | crates/rt-gui/src/state.rs:1189-1194 | switching to the tab shown does nothing, to another one opens it |
| Effects.SelectShows | crates/rt-gui/src/state.rs:1434-1442 | another agent that is selected is remembered for the task and read |
| Effects.ReconnectRereads | crates/rt-gui/src/state.rs:954-960 | a bridge that comes back while the host is online has a shown canvas read again |
| Effects.DiscoverConnects | crates/rt-gui/src/state.rs:621-777 | a discovery ends online with the session offered if and only if there are a pid file and a session, and else offline; a keepalive that is due ends offline if and only if it is not answered; otherwise nothing changes |
| Effects.RetryConnects | crates/rt-gui/src/state.rs:714-766 | after a retry the next discovery does so whatever the state |
| Effects.DiscoverReadsCatalog | crates/rt-gui/src/state.rs:2009-2020 | after it the catalog has the host's workspaces, the first chosen, and its presets or the built-in ones; offline it has none |
| Effects.StopStarts | crates/rt-gui/src/state.rs:1814-1836 | stop starts one cancel for the shown agent if it runs and none is pending, and does nothing otherwise |
| Effects.WorkerAnswers | crates/rt-gui/src/state.rs:1829-1835 | a worker's answer is queued for its agent as the host gave it |
| Effects.TickTakesAnswer | crates/rt-gui/src/state.rs:679-706 | the tick after that ends the cancel; if the host took it the first agent of either name is idle and no other changes, if not none does |
| Effects.StoppedIsIdle | crates/rt-gui/src/state.rs:660-706 | stop, the answer and a tick leave the agent that was shown, or the one the host names, idle |
| Effects.RequestOpensIff | crates/rt-gui/src/state.rs:3851-4636 | when a request opens its gate, closes it or leaves it, gate by gate; no other gate changes |
| Effects.ConfirmedIsClosed | crates/rt-gui/src/state.rs:3873-4667 | a confirmed or withdrawn gate is closed and no other changes |
| Effects.ConfirmedRereads | crates/rt-gui/src/state.rs:3904-4667 | what a guarded command the host took has the client read again, and that a refused one changes neither catalog nor tabs |
| Effects.ApprovalIsKept | crates/rt-gui/src/state.rs:813-945 | a request for approval is kept under its agent if and only if it has an id and its task has a tab |
| Effects.RespondClears | crates/rt-gui/src/state.rs:2593-2616 | an answer the host took clears the shown agent's approval and no other |
| Effects.StatusIsShown | crates/rt-gui/src/state.rs:813-945 | when a status event is heard, and that it changes the first agent of that id only |
| Effects.CreatedIsSelected | crates/rt-gui/src/state.rs:1350-1432 | a created agent is appended, selected, remembered and read |
| Effects.DeleteSelectsNext | crates/rt-gui/src/state.rs:3200-3223 | after the selected agent is deleted the first other one of the task is selected and read; another selection stays |
| Effects.DeleteKeepsOthers | crates/rt-gui/src/state.rs:3207-3212 | a deletion keeps, in order, every inbox item that does not mention the agent |
| Effects.CreatedTaskIsShown | crates/rt-gui/src/state.rs:2103-2154 | a created task is opened and the catalog read again |
| Effects.EditRereads | crates/rt-gui/src/state.rs:2070-2201 | a workspace, title or archiving the host took has the catalog read again, a refused one does not |
| Effects.CreatedPresetIsPicked | crates/rt-gui/src/state.rs:4555-4588 | a created preset is picked if it is listed then; an unknown command closes the gate |
| Effects.SavedPresetIsRead | crates/rt-gui/src/state.rs:4590-4622 | a saved preset has the presets read again |
| Effects.SyncFormsAre | crates/rt-gui/src/state.rs:3807-3979 | an archive or push the host does not know closes its gate, and nothing else changes |
| Effects.SwitchedIsShown | crates/rt-gui/src/state.rs:3458-3497 | the agent whose model was switched is shown as the host answers and then reads it |
| Effects.RoleIsTaken | crates/rt-gui/src/state.rs:4456-4480 | a role the host took replaces the entry of the selected agent only |
| Effects.ComposerClears | crates/rt-gui/src/state.rs:1838-1921 | what was typed is cleared if and only if it was sent and taken |
| Effects.ToggleLists | crates/rt-gui/src/state.rs:1923-1953 | a directory opened for the first time shows what the host lists |
| Effects.DraftsAre | crates/rt-gui/src/state.rs:4397-4412 | drafts, screens and the clock; only a known preset is picked |
| Effects.TickSearches | crates/rt-gui/src/state.rs:4172-4225 | 350 ms after the last edit a tick submits the search: one `search.query` of the trimmed text if that is new and the host takes it, the popup then holding its items; a blank text closes the popup; an earlier tick leaves the search alone |
| Effects.EditIsAnswered | crates/rt-gui/src/state.rs:4168-4225 | from any state, whatever happens elsewhere in between, the first tick 350 ms or more after the last edit answers the text typed |
| Effects.SubmitButtonAnswers | crates/rt-gui/src/state.rs:4182-4225 | the button answers at once as the tick does |
| Effects.PickOpens | crates/rt-gui/src/state.rs:4227-4267 | what a picked result opens, and that the popup is closed |
| Effects.ReturnPicks | crates/rt-gui/src/state.rs:4273-4282 | return picks the first result shown, or submits and picks the first result that brings |
| Exchange.StepSays | crates/rt-gui/src/state.rs:1838-1921 | of all steps only mod-Enter, send and steer send a message, exactly one, exactly when an agent is shown, there is a session and a text and no cancel is pending: a steer to a running agent, a send to one that is not |
| Exchange.MessagesAreSaid | crates/rt-gui/src/state.rs:1838-1921 | in every run the `agent.send` and `agent.steer` RPCs match, one to one and in order, the events that say them, each to the agent shown at that moment and as its status asks |
| Exchange.StepMergesArrivals | crates/rt-gui/src/state.rs:3136-3148 | after any step the inbox is the one before, less the mentions of an agent it deletes, with every answer to the step's own `agent.context` and `a2a.deliver` RPCs and every reported delivery merged in order; no RPC is unsent |
| Exchange.InboxIsArrivals | crates/rt-gui/src/state.rs:3136-3148 | in every run nothing in the inbox is made up, and since the last deletion nothing that arrived is lost |
| Exchange.ArrivalOrderDoesNotMatter | crates/rt-gui/src/state.rs:3136-3148 | two runs without deletions in which the same things arrive, in any order and by any commands, hold the same message ids, those that arrived |
| RunFacts.NoRunTalksWhileCancelling | crates/rt-gui/src/state.rs:1814-1921 | in every run nothing is sent, steered or cancelled between the start of a cancel and the end of it |
| RunFacts.CancelsEnd | crates/rt-gui/src/state.rs:660-706 | in every run a pending cancel has a worker or a queued result, and a worker's answer, whatever it is, followed by a tick ends it |
| RunFacts.NoRunRepeatsAQuery | crates/rt-gui/src/state.rs:4182-4267 | in every run two successive equal `search.query` RPCs have a dismissal or blank submit between them |
| RunFacts.EveryDebounceIsPatient | crates/rt-gui/src/state.rs:4168-4180 | in every run a debounced submit comes 350 ms or more after the last edit and once per edit; that it comes is `Effects.EditIsAnswered` |
| RunFacts.OtherStepsKeepOrder | crates/rt-gui/src/state.rs:4903-4926 | only a drag changes the stored tab order |
| RunFacts.OrderStaysDistinctIff | crates/rt-gui/src/state.rs:4903-4926 | the stored order never gets a duplicate in a run, whatever the host lists, if and only if every drag in it is ignored (a blank id, an agent on itself, a tile not listed) or finds the ids the order does not name distinct |
| RunFacts.ToggleAsksOnce | crates/rt-gui/src/state.rs:1923-1953 | toggling flips one directory, asks the host only for one that is not cached, and leaves all others and their listings alone |
| TabMemory.LeavingRemembers | crates/rt-gui/src/state.rs:1172-1218 | any step that leaves a task other than by closing it remembers the agent selected there |
| TabMemory.StepRemembers | crates/rt-gui/src/state.rs:1172-1281 | no step on other tasks loses a remembered agent, and the step that comes back selects it if the host's list still has it |
| TabMemory.StaysAway | crates/rt-gui/src/state.rs:1172-1281 | the memory survives any number of steps that neither show the task nor close its tab |
| TabMemory.LeaveAndComeBack | crates/rt-gui/src/state.rs:1172-1281 | leaving a task, doing anything elsewhere and coming back restores the agent that was selected |
| TabMemory.CloseForgets | crates/rt-gui/src/state.rs:1196-1211 | after closing a tab, selected or not, the task is not open, not selected, has no remembered agent and no pending approval |
| HonestHost.HonestRunsStayUnique | crates/rt-gui/src/state.rs:1234-1432 | against a truthful host agent ids and the stored tab order stay free of duplicates in every run, and each agent has the host's task and, if the host never moves it below another agent, its parent, but for cleared pointers to agents not listed |
| HonestHost.TabBarIsAPermutation | crates/rt-gui/src/state.rs:4885-4926 | in every such run the tab bar shows each agent of the selected task exactly once, however stale the stored order, named ones first and the others as listed |
| HonestHost.TreeCanBeBuilt | crates/rt-gui/src/a2a.rs:61-91 | in every such run the tree the canvas builds over the tab bar meets the precondition of the recursion and exists |
| HonestHost.HonestDeletionHidesNobody | crates/rt-gui/src/state.rs:3200-3223 | in every such run, if no agent known to the client ever gets another parent, a deletion hides no other agent of that tree, although the host never hears of it and the reload brings the cleared pointer back |
| Deletion.DeletionEntries | crates/rt-gui/src/state.rs:3200-3223 | after the whole deletion step, reload included, the tree is built over the old tab bar less the deleted agent, up to pointers to agents not in it |
| TabBarFacts.OrderedWithout | crates/rt-gui/src/state.rs:4885-4901 | deleting an agent leaves the order of the others in the tab bar alone, for any stored order |
| TabBarFacts.TabBarInOrder | crates/rt-gui/src/state.rs:4885-4901 | the tab bar has exactly the client's agents of the selected task; one stands before another if and only if the order names it and not the other, or both and it earlier, or neither and it is earlier in the client's list |
| TabBarFacts.OrderedIds | crates/rt-gui/src/state.rs:4885-4901 | the ids of the tab bar are those `TabOrder.OrderedByPositions` speaks of, for any order and list |
| Deletion.DeleteStepHidesNobody | crates/rt-gui/src/state.rs:3200-3223 | the deletion step, with a host that knew the agents as they were before it, hides no other agent of the tree, promotes the children with their subtrees, and keeps acyclicity |
| Deletion.DeletionInbox | crates/rt-gui/src/state.rs:3207-3218 | the inbox after a deletion is the old one without mentions of the agent, plus what the transcript read next announces |
| Deletion.DeletedIsMentionedIff | crates/rt-gui/src/state.rs:3207-3218 | the inbox mentions the deleted agent afterwards if and only if that transcript announces a message from it that is news |
| Deletion.DeletedCanBeMentionedAgain | crates/rt-gui/src/state.rs:3207-3218 | a run from the initial state after which it does |
| AppState.AppState.constructor | crates/rt-gui/src/state.rs:421-582 | a new client is in the initial state of every run |
| AppState.AppState.IngestInbox | crates/rt-gui/src/state.rs:3140-3148 | the loop over the transcript merges every announcement in order |
| AppState.AppState.MergeInboxItem | crates/rt-gui/src/a2a.rs:142-150 | the scan appends the item unless its non-empty id is held |
| AppState.AppState.ApplyDiscovery | crates/rt-gui/src/state.rs:721-766 | from any state every outcome of a discovery ends Online or Offline with session, token, bridge and status consistent |
| AppState.AppState.GoOffline | crates/rt-gui/src/state.rs:779-790 | from any state the client ends Offline without session, token, bridge and workspaces |
| AppState.AppState.GoingAway | crates/rt-gui/src/state.rs:917-925 | from any state a named host's goodbye leaves the client consistently Offline, and the catalog stays |
| AppState.AppState.DropFromAgents | crates/rt-gui/src/state.rs:3201-3206 | the filter and the loop over the survivors drop the agent and clear exactly the pointers to it |
| AppState.AppState.TickRpc | crates/rt-gui/src/state.rs:660-677 | the drain loop and the apply loop together apply every queued result once, in order, before the search tick |
| AppState.AppState.OrderedAgentsForSelectedTask | crates/rt-gui/src/state.rs:4885-4901 | the two loops with their seen set give exactly the agents of the selected task, those the order names first and in its order, then the others as listed |
| AppState.AppState.Handle | crates/rt-gui/src/state.rs:621-4926 | every event takes the object from the state it stands for to the model's next state and keeps all invariants |

## Left out

- Transport, JSON and sockets: an RPC is an entry of the trace, its answer a field of `Host`; parsing JSON (`parse`) and floating-point metric values (`float`) are parameters.
- Version gates and handshake parsing: one flag per capability in `Session`.
- Screens, dialogs, toasts and other texts: choosing an import file is the flag `picked`, the pickers of provider, interface, role and profile the flags `pickerReady`, `ready` and `changed`, the preset drafts the flag `valid`; chrome sets the screen only to the task list or the host page.
- Side panels (terminals and their buffers, root listing, artifacts, git, guides, policies, loops, accounts, stash, metrics refresh): their state and RPCs are not part of the state or the trace, so the theorems on RPCs speak of the modelled ones only.
- The task list, presets per task and workspace paths of the catalog; the RPC that lists presets.
- The message list of the transcript: only what it announces to the inbox; the messages appended by host events are left out.
- `confirm_push`, `confirm_yolo` and `confirm_clear_transcript` do not test their flag, so the gate theorems do not cover them.
- The looked-up task of a found artifact and whether a provider's inbox is live are inputs of the events; selecting the found artifact and its pane is left out.
- The directory cache is not cleared when an agent is isolated, so nothing is claimed about it matching the current worktree.
- Failure to start a cancel thread: the program ignores it, the model assumes the thread starts.
- Demo mode, which selects a task without opening a tab.
- Time: milliseconds as a natural number that only grows.
- `port_from_rpc_url` and the stat-line parse of `is_pid_alive`: single expressions.
- The flat fields of the program are grouped into records; the thread and channel of a cancel are the queues `workers` and `results`.
- Deletion.DeleteStepHidesNobody: assumes a host whose entry of each agent agrees with the one the client had before the deletion, up to pointers to agents not listed; HonestHost.HonestDeletionHidesNobody proves that of every honest run.
- HonestHost.HonestRunsStayUnique: assumes lists with distinct ids of agents of the task asked for, answers about the agent asked for, new ids for created agents, and that an agent stays in its task for good (its parent may change: `Roaming`), since the client checks none of it; RunFacts.OrderStaysDistinctIff says exactly when the stored order stays free of duplicates without that.
- HonestHost.TabBarIsAPermutation: assumes the same; TabOrder.OrderedIsPermutationIff is the exact condition without it.
- HonestHost.TreeCanBeBuilt: assumes the same; ForestFacts.ForestExistsIffNoRevisit is the exact condition without it.
- HonestHost.HonestDeletionHidesNobody: assumes the same and that agents keep their parents (`Settled`); Deletion.DeleteStepHidesNobody is the step without a history.
- Deletion.DeletionEntries: assumes of the host what Deletion.DeleteStepHidesNobody does; a host that gives the agent read next another parent moves it in the tree.
- Exchange.ArrivalOrderDoesNotMatter: speaks of runs that delete nobody; Exchange.InboxIsArrivals covers the others from their last deletion on.
