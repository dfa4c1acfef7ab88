# A verified model of bisync

bisync keeps directory trees on two hosts in step. Each node watches its files, debounces the
events, records them in a changelog with hybrid-logical-clock stamps, and runs reconcile cycles
against its peer: fetch the peer's pending entries, read the own ones, keep the newest entry of
each path, decide conflicts by policy, push or delete on the peer, then mark and acknowledge.
This project models that behaviour in Dafny and proves what it guarantees.

## How it is laid out

The reconciler appears in three forms that are tied to each other by proof.

* `Reconciler.dfy` and `Store.dfy` are the objects: a host with its files and server handlers, the
  changelog table, and the reconciler whose `Run` loops over a key set in an undetermined order.
* `Cycle.dfy` states on values what one turn of that loop does, and `Pointwise.dfy` shows that the
  loop over any order of keys computes one key-by-key specification. `Run` is proved to compute
  exactly this loop. `Conflict.dfy` holds the decision, `KeepBoth.dfy` and `ConflictNames.dfy` what
  keep_both does with files in one cycle.
* `Protocol.dfy` splits a cycle into atomic steps of a two-node state machine in which the cycles
  of both nodes overlap freely with each other and with edits, log appends, pruning, restarts,
  failing calls and lost replies. `CycleRuns.dfy` shows that an uninterrupted cycle is one of its
  runs.

On the state machine stand the results about whole runs: `Retention.dfy` (what happens to a row),
`Newest.dfy` (newest first), `Blocking.dfy` and `BlockedCycle.dfy` (the manual policy),
`Deletes.dfy` (where a removal can come from), `Dormant.dfy` (a path with nothing pending), and
`Quiet.dfy`, `WinnerFirst.dfy`, `Convergence.dfy` and `Fairness.dfy` (convergence). `OneCycle.dfy`
and `BothCycles.dfy` follow one path through at most one cycle of each node, or what is left of it,
from any two logs; on them stand `EditContest.dfy` (two edits under lww or alpha_wins),
`DeleteModify.dfy` (a delete against an edit), `KeepBothRuns.dfy` (two edits under keep_both),
`LateEdit.dfy` (an edit during the peer's cycle) and `MidCycle.dfy` (two edits, from any point of
both cycles). `OneLogger.dfy`, `OldestLast.dfy` and `LoggerPace.dfy` follow a path that one node
alone has logged through any number of cycles of both. `EditLoss.dfy`, `EditHeldBack.dfy`,
`OvertakenEdit.dfy`, `EmptiedPath.dfy` and `LoggerLoses.dfy` are example runs that fall short of the
documentation; `SingleCycles.dfy` helps to build them. `Draining.dfy` is about repeated
uninterrupted cycles of one node, `Pruning.dfy` about what the text cutoffs mean in time.

The clock is `HlcClock.dfy`, over the text form in `HlcText.dfy` (with `Digits.dfy` and `Text.dfy`),
what exactly parses in `HlcParse.dfy`, the calendar in `Calendar.dfy`, and the comparison of its two
orders in `HlcOrder.dfy`; `StampTexts.dfy` is about queries in text order. The watcher's parts are
`Debounce.dfy` (the interleavings), `Debouncer.dfy` (the object), `Fanotify.dfy` (the byte walks)
and `Filter.dfy`; `Config.dfy` is the sync-pair check.

Check everything with `dafny verify dfyconfig.toml`.

## What the model takes as given

* A node's files are a map from (pair, relative path) to content; paths are flat. A transfer copies
  the sender's current content or fails; whether a call gets through, whether its reply does, and
  whether a move succeeds are parameters of each step.
* An entry carries its decoded stamp. `HlcOrder.CompareDecodes` shows that comparing decoded stamps
  is what CompareHLC does with printed ones.
* Wall-clock readings, creation times, key orders and snapshots taken from a log with equal stamps
  are arbitrary inputs.

## Where the code differs from its documentation

* `docs/overview.md:82` says that the reconciler merges the peer's stamps. HLCReceive is never called
  by it, so the causal order below is a theorem about the clock, not about the daemon.
* `docs/overview.md:86` says that keep_both renames the losing file before applying the winner. The
  code always moves the running node's own file, even when the remote entry lost; the following
  push then finds no file and is skipped (`KeepBothPolicy.KeepBothEmptiesPath`). Over one cycle of
  each node the last write ends at the path exactly if the winner's fetch saw no edit of the path, or
  the loser's saw none and the files are the same (`KeepBothRuns.LastWriteStandsIff`);
  `EmptiedPath.PathCanEmpty` is a run that leaves the path empty.
* `docs/overview.md:88` says that a manual block lasts until the file is deleted on at least one side.
  A block is lifted only by a cycle whose own newest entry is a delete
  (`Blocking.BlockedStep`), or by a restart of the daemon; a delete on the other side alone does not
  lift it.
* `docs/overview.md:90` says that a modify beats a concurrent delete. One resolution does that. Over one
  cycle of each node the editing node keeps its file exactly if the deleting node's fetch saw some
  pending entry of the path (under keep_both it may set it aside), and the deleting node gets it
  exactly if the editing node's fetch saw none, a delete, or an edit that loses in place
  (`DeleteModify.EditSurvivesIffSeen`). `EditLoss.EditCanBeLost` is a run in which the editor loses its
  file; `EditHeldBack.EditCanBeHeldBack` is one in which an older edit under the delete keeps the file
  from ever being sent.
* `docs/overview.md:136` promises that both nodes converge. They do from edit-only logs once nobody
  edits any more (`Convergence.TreesConverge`), but not in general. Of several pending entries of a
  path each cycle takes the newest, so an old delete under a newer create is applied last and removes
  the file at the peer (`OldestLast.OldestDecides`). Moreover a node that has logged nothing of the
  path can remove the logger's own, newer file: exactly if one of its fetches came while a delete was
  the logger's newest pending entry, and its turn after the logger had marked its last
  (`OldestLast.TakenIffSeen`). `LoggerLoses.FileCanBeLost` is a run after which the file is gone on both
  nodes, `LoggerLoses.LoggerCanLose` one after which only the other node has it. And with edits only:
  an edit that is logged after the peer's cycle has had its turn for the path, and fetched against
  before the peer has marked, is settled unsent if it does not win over the entry the peer has just
  pushed (`LateEdit.HeldBackIff`, `OvertakenEdit.EditCanBeOvertaken`). The trees then stay different
  until the path is edited again (`Dormant.DormantStays`).

## Model

| member | source | states |
|---|---|---|
| Convergence.TreesConverge | internal/reconciler/reconciler.go:61-229 | Both nodes start idle with nothing blocked, with logs of creates and modifies of existing files of pairs both know, any number per path, and trees that agree on every other path; lww with distinct stamps, or alpha_wins. From there nothing but the two cycles and pruning acts: no edit and no append. Whatever fails, loses its reply or restarts up to some step, every interleaving in which both nodes take enough cycle steps after it, free of these, is in a state with equal trees, each logged path holding the policy winner's file, and no pending entry |
| Fairness.FairRunsConverge | internal/reconciler/reconciler.go:61-229 | From the same starts and with the same actions: every infinite run in which both nodes keep taking cycle steps, and calls and marking steps fail and daemons restart only finitely often, reaches such a state and never leaves it |
| Fairness.NeverStuck | internal/reconciler/reconciler.go:61-199 | In every state each node has a cycle step to take that does not fail |
| Fairness.FairRunExists | internal/reconciler/reconciler.go:61-199 | From every such start there is an infinite run in which both nodes keep taking cycle steps and nothing fails |
| WinnerFirst.LoserNeverFirst | internal/reconciler/reconciler.go:114-175 | At every point of every such run without edits and appends, whatever fails, restarts or is pruned, the winner's file is in place, and either the loser has it or the winner's entry is pending, not marked by its own cycle, and seen by any cycle of the loser |
| WinnerFirst.UnloggedUntouched | internal/reconciler/reconciler.go:90-94 | In such a run a path with no pending entry at the start keeps its file on both nodes throughout |
| Convergence.RoundsDone | internal/reconciler/reconciler.go:61-199 | In such a run a node that took enough cycle steps without failures, from wherever its cycle was, has completed the marking step of that many cycles, whatever the interleaving |
| Convergence.WinnerExists | internal/reconciler/conflict.go:89-102 | Every logged path has a winner under lww with distinct stamps and under alpha_wins |
| Convergence.WinnerUnique | internal/reconciler/conflict.go:89-102 | Only one of the two nodes can be the winner of a path |
| BothCycles.TwoTurns | internal/reconciler/reconciler.go:61-199 | For one path, any policy (keep_both: outside the conflict directory) and any two logs with a newest pending entry of it, both nodes idle or anywhere in a cycle before their turn for the path: after one cycle of each, overlapped in any way, with the calls for the path and the marking steps succeeding, no abandoned cycle or restart, no other event of the path and no pending entry of it pruned, the two files are what the two turns make of them one after the other, each with what that node's one fetch saw; a node whose fetch missed the other's newest entry has its turn second, so at most one missed it |
| BothCycles.LeftPending | internal/reconciler/reconciler.go:178-182 | A node's cycle takes exactly its newest entry of the path off what is pending, unless the turn blocked the path, and then it takes none |
| BothCycles.FetchSees | internal/reconciler/reconciler.go:74-82 | A fetch sees an unbeaten one of the other's entries of the path: of all that were pending at the start, but for the newest once that is marked |
| EditContest.WinnerPrevails | internal/reconciler/conflict.go:89-102 | An edit as newest pending entry of the path on both nodes, any number of older ones (deletes too), and the file on both, under lww with different stamps or alpha_wins, in such a run: both nodes end with the file of the node whose newest entry the policy prefers, although either fetch may have seen an older entry instead |
| EditContest.EvenStampsAgree | internal/reconciler/conflict.go:89-102 | When the policy prefers neither (equal stamps under lww, equal node names under alpha_wins) both nodes keep their own and send it; the trees agree on the path all the same, on one of the two files |
| DeleteModify.EditSurvivesIffSeen | internal/reconciler/reconciler.go:133-175 | A delete as one node's newest pending entry of the path against an edit as the other's, any number of older ones on both, in such a run: the editor keeps its file if and only if the deleter's fetch saw some entry of the path, except that under keep_both an editor whose fetch saw an edit has set it aside; the deleter has the editor's file if the editor's fetch saw no entry, a delete, or an edit that loses without a move, and otherwise what it had before |
| DeleteModify.AgreeAfterwardsIff | docs/overview.md:90 | If the deleter's file is gone at the start, the trees then agree on the path if and only if the editor's is gone too, or the editor's turn sent it and the deleter's fetch saw an entry, or the editor set it aside |
| DeleteModify.EditBlockedIff | internal/reconciler/reconciler.go:153-161 | The delete is settled; the edit is settled too, unless under manual the editor's fetch saw an edit: then it stays pending and the path is blocked at the editor |
| DeleteModify.SeenIffBeforeMark | internal/reconciler/reconciler.go:74-82 | The deleter's fetch sees no entry exactly if the editor has marked its edit by then and had no other entry of the path pending |
| DeleteModify.SendsIffBeforeMark | internal/reconciler/reconciler.go:74-82 | The editor's turn sends the file exactly if the deleter has not marked when the editor fetches, or its next pending entry of the path is absent, a delete, or an edit that loses without a move |
| EditLoss.EditCanBeLost | internal/grpc/server.go:118-136 | A run of this kind, editor first, after which the deleter has the file, the editor has lost it, and nothing is pending |
| EditHeldBack.EditCanBeHeldBack | internal/reconciler/conflict.go:89-94 | A run of this kind under lww, with an older edit under the delete, continued by a second cycle of the deleter: nothing is pending in the end, and only the editor has the file |
| LateEdit.LateEditArrivesIff | internal/reconciler/reconciler.go:114-182 | An edit of a file at a node anywhere in its cycle before its turn for the path, when the peer's cycle has had its turn: after that clean cycle of the editing node, which the peer may outlast but not follow with a new one, the trees agree on the path if and only if the edited file was sent, or both had the same and it was not moved, or it was moved away and the peer has none |
| LateEdit.HeldBackIff | internal/reconciler/reconciler.go:74-86 | Its fetch sees the entry the peer has just dealt with exactly if that is not yet marked; if the peer has no other, the edit is sent if and only if that entry is marked by then, is a delete, or loses without a move |
| OvertakenEdit.EditCanBeOvertaken | internal/reconciler/conflict.go:96-102 | A run with edits only, under alpha_wins: the edit made between the peer's push and its mark is settled unsent, nothing is pending in the end, and each node has its own file |
| MidCycle.AgreeIff | internal/reconciler/reconciler.go:61-199 | Two edits on top of the two logs, any number of older entries, any policy, each node anywhere in a cycle or idle before it, and the file there where the turn is ahead: once both cycles have ended, under the conditions of TwoTurns, the trees agree on the path if and only if: both had their turn ahead, and the policy is not manual or the files are the same; or one had, and the condition of LateEditArrivesIff holds; or none had, and they agreed |
| Dormant.DormantStays | internal/reconciler/reconciler.go:88-94 | A path with nothing pending on either node or in a running cycle keeps its file on both nodes through every run in which it is not edited or logged, whatever else happens (keep_both: outside the conflict directory) |
| OldestLast.FileStaysUnlessTaken | internal/grpc/server.go:118-136 | A path that one node alone has logged, any number of entries, both nodes anywhere in their cycles, under any policy (keep_both: outside the conflict directory): in every run of cycles of both nodes, whatever fails, loses its reply or restarts, in which the path is not edited or logged and none of its pending entries is pruned, the logger's file stays until a turn of the other node takes it, and none does while an entry is pending |
| OldestLast.OldestDecides | internal/reconciler/reconciler.go:117-182 | In such a run, whenever nothing of the path is pending any more: the other node has the logger's file, or none if the oldest entry is a delete; if the logger had no file, none if any entry is a delete and otherwise what it had. The trees then agree on the path if and only if, when the logger had the file, the oldest entry is a delete exactly if the file has been taken; when it had none, some entry is a delete or the other node had none |
| OldestLast.TakenIffSeen | internal/reconciler/reconciler.go:231-256 | The file is taken if and only if some fetch of the other node saw a delete, and the turn of that same cycle, with its call getting through, came when nothing was pending at the logger any more (the other node idle at the start) |
| OldestLast.SeesIfNewest | internal/reconciler/reconciler.go:74-82 | In any run, a fetch sees a delete of the path exactly if that is the newest entry pending at the logger |
| LoggerPace.OnePerMark | internal/reconciler/reconciler.go:178-182 | With the logger idle at the start and its own calls for the path and marking steps succeeding, each marking step takes exactly one entry of the path, whatever the other node does |
| LoggerLoses.FileCanBeLost | internal/reconciler/reconciler.go:231-256 | Logs of a delete and a newer create on one node, nothing on the other: a run of cycles in which nothing fails and after which the created file is gone on both nodes and nothing is pending |
| LoggerLoses.LoggerCanLose | internal/reconciler/reconciler.go:231-256 | With a create under the delete: such a run after which the logger has lost its file, the other node has it, and nothing is pending |
| Pointwise.LoopMeetsSpec | internal/reconciler/reconciler.go:94-176 | Except under keep_both, the loop over any order of the keys gives the trees, blocked set, marks and acknowledgements that a specification reads off each key's two newest entries |
| Pointwise.OrderIndependence | internal/reconciler/reconciler.go:94-176 | Two orders of the same keys end in the same state |
| Pointwise.ProcessMeetsSpec | internal/reconciler/reconciler.go:94-176 | One turn of the loop changes the peer's file, the block and the two id sets of its own key as specified, and nothing else |
| CycleRuns.CycleIsRun | internal/reconciler/reconciler.go:61-199 | The whole cycle, with any mix of failing calls, is a run of the state machine and ends in the state the loop computes |
| CycleRuns.RoundIsCycle | internal/reconciler/reconciler.go:178-199 | The uninterrupted cycle of the results about draining is this one, with nothing blocked and its marks and acknowledgements getting through |
| Draining.RoundDrains | internal/reconciler/reconciler.go:178-182 | With no step of the peer in between, no failure and nothing blocked, under any policy but manual, and with each pair that this node knows and has entries of known to the peer: an uninterrupted cycle takes exactly the newest pending entry of each known-pair key: the number of pending entries drops by the number of those keys, and the peer's are the same |
| Draining.LogDrains | internal/reconciler/reconciler.go:61-199 | Under the same conditions, after as many such cycles of this node in a row as the largest number of pending entries of one key, each with its own clock, nothing of a known pair is pending |
| Draining.DrainedIsStable | internal/reconciler/reconciler.go:124-131 | From then on an uninterrupted cycle of this node, with no step of the peer in between and nothing blocked, changes no tree and no synced flag on either node, whatever the peer has pending |
| Conflict.WinnerAgreement | internal/reconciler/conflict.go:44-102 | Two differently named nodes reach the same verdict on a pair of entries except exactly for equal stamps of the same sort under lww or keep_both, where each keeps its own; manual blocks exactly the pairs of one sort |
| Conflict.EditVerdict | internal/reconciler/conflict.go:63-102 | Of two edits the local one wins, under alpha_wins, exactly if its node name is the same, begins the remote one's, or has the smaller character at the first difference; under lww and keep_both exactly if its stamp is not the earlier one |
| Conflict.EditBeatsDelete | internal/reconciler/conflict.go:52-61 | Under every policy, manual included, an edit wins over a delete whichever is local, and nothing is moved |
| Conflict.ShorterNameWins | internal/reconciler/conflict.go:96-102 | A node whose name begins the other's wins under alpha_wins, seen from both nodes |
| Text.LexLessIff | internal/reconciler/conflict.go:98 | The order of strings, here and in SQL: less exactly if it begins the other, or has the smaller character at the first difference |
| Deletes.RemovalNeedsLoneDelete | internal/reconciler/reconciler.go:114-175 | Under every policy a turn takes a file from the peer only for a delete that one side alone has logged, with the call getting through and the peer's guard passed |
| Deletes.LoneDeleteRemoves | internal/reconciler/reconciler.go:201-246 | And then it does: the file is gone if and only if these conditions hold |
| Deletes.RemovalOrigin | internal/grpc/server.go:112-137 | In the state machine, a step of one node removes a file of the other only while handling such a delete |
| Deletes.RemovalWasLogged | internal/reconciler/reconciler.go:61-256 | In every run from two idle nodes, whatever is edited, appended, pruned, restarted or fails, a step of the protocol takes a file from a node only if one of the two logs, which may be that node's own, held a delete of that path before, or, under keep_both, to set it aside on the same node |
| Deletes.SharedKeyNeverDeletes | internal/reconciler/reconciler.go:133-175 | A path with an entry on both sides never loses a file at the peer, whatever the policy and the two events |
| Deletes.OwnEntryGuards | internal/grpc/server.go:118-125 | A delete seen only on the peer and still pending there changes neither node and is not acknowledged |
| Blocking.BlockedStep | internal/reconciler/reconciler.go:98-107 | No step of the blocking node's cycle touches a file or a flag of a blocked key on either node, and the block ends exactly if its cycle sees its own newest entry as a delete and the peer's as absent or a delete, or the daemon restarts |
| Blocking.BlockedUntilLifted | internal/reconciler/reconciler.go:98-107 | Over any run the key stays blocked until that happens |
| Blocking.BlockedKeyUntouched | internal/reconciler/reconciler.go:98-107 | And until then no cycle step of that node, at any point of the run, changes anything of the key |
| BlockedCycle.CycleLiftsIff | internal/reconciler/reconciler.go:74-107 | A cycle of the blocking node, from its fetch to its marking, overlapped in any way and whatever fails in its loop, lifts the block if and only if its own newest pending entry of the path was a delete when it read its log, and the peer's newest was a delete or there was none when it fetched (keep_both: outside the conflict directory) |
| Blocking.ManualBlocksBoth | internal/reconciler/reconciler.go:153-161 | When both nodes know the pair and have an edit of a path on top under manual, then in any run that leaves the path alone its files and flags stay as they are on both nodes, and each node that marked since its last restart has it blocked |
| Retention.RowStep | internal/changelog/store.go:144-175 | In any step: flags only rise, synced only by the owner's cycle for the entry it handled, peer_ack only by the peer's cycle for the entry it fetched, and a row goes only by pruning |
| Retention.IdsNeverReturn | internal/changelog/store.go:12-14 | An id that is gone never names a row again, so an acknowledgement from a stale snapshot never hits another entry |
| Retention.RowHistory | internal/changelog/store.go:144-175 | Over any stretch of any run a row keeps its entry, and a flag that rose was raised by the right node's cycle in between |
| Retention.RetentionSafety | internal/changelog/maintenance.go:35-61 | A row that left the log was taken by a pruning step, and unless it is a delete both its flags were set then |
| Protocol.StepKeepsValid | internal/reconciler/reconciler.go:61-199 | Every step of either node keeps the invariant that ids in a running cycle stem from its own snapshots and still name the entries those recorded |
| Protocol.RunKeepsValid | internal/reconciler/reconciler.go:61-199 | Every reachable state satisfies it |
| Newest.SyncedUpwardClosed | internal/reconciler/reconciler.go:174-182 | In every run, whatever is appended, pruned or fails, the synced ones among the entries there at the start are at every point closed upward, per key, in the order of stamps |
| Newest.MarkTakesNewest | internal/reconciler/reconciler.go:178-182 | In every run a marking step never takes an entry while a strictly newer one of its key is pending that was logged before the node last read its log, or before any earlier such read |
| Reconcilers.GroupEntries | internal/reconciler/reconciler.go:281-290 | Per key the first of the entries that no other entry of the key beats |
| Reconcilers.GroupingIgnoresOrder | internal/reconciler/reconciler.go:281-301 | With distinct stamps per key the result does not depend on the order of the input |
| Reconcilers.GroupsAreNewest | internal/reconciler/reconciler.go:84-86 | On a full list of pending entries it is a newest-entry snapshot of the log |
| Reconcilers.Reconciler.PushToRemote | internal/reconciler/reconciler.go:201-229 | The peer's state and the outcome are those of the value model; nothing else changes |
| Reconcilers.Reconciler.PullFromRemote | internal/reconciler/reconciler.go:231-256 | A pulled delete goes to the peer's own handler, anything else moves nothing |
| Reconcilers.Reconciler.EvacuateLoser | internal/reconciler/conflict.go:104-121 | Moves the running node's own file to the conflict name, or fails and changes nothing |
| Reconcilers.Reconciler.HandleConflict | internal/reconciler/reconciler.go:133-175 | Both nodes, the blocked set and the id lists end as the value model says |
| Reconcilers.Reconciler.HandleKey | internal/reconciler/reconciler.go:94-176 | The same for a whole turn of the loop |
| Reconcilers.Reconciler.HandleAll | internal/reconciler/reconciler.go:88-176 | The loop visits every merged key once, in some order, and computes the value model's loop over that order |
| Reconcilers.Reconciler.Run | internal/reconciler/reconciler.go:61-199 | A failed fetch or read changes nothing; otherwise the cycle works on newest-entry snapshots of both logs and ends in the loop's trees and blocked set with its marks and acknowledgements applied, each unless its call fails |
| Reconcilers.Reconciler.Settle | internal/reconciler/reconciler.go:178-192 | Sets exactly the gathered flags, each call on its own |
| Reconcilers.Host.DeleteFile | internal/grpc/server.go:112-137 | Refuses an unknown pair and a path with pending entries, otherwise removes that one file |
| Reconcilers.Host.ExchangeChangelog | internal/grpc/server.go:82-101 | Lists every pending entry of the asked pair after the cursor exactly once, in the order of stamp texts, with the greatest stamp text of the log, or the clock's next if the log is empty |
| Reconcilers.Host.AckTransfer | internal/grpc/server.go:104-109 | Sets peer_ack for exactly the named rows, or for none |
| Stores.Store.Append | internal/changelog/store.go:82-97 | A new pending row under an id never handed out before, with the entry and the creation time given; all other rows as they were; the same step that the state machine takes |
| Stores.Store.UpdateFlag | internal/changelog/store.go:154-175 | All the named rows get the flag, or none does; unknown ids are ignored |
| Stores.Store.MarkSynced | internal/changelog/store.go:144-147 | The same for synced |
| Stores.Store.MarkPeerAck | internal/changelog/store.go:149-152 | The same for peer_ack |
| Stores.Store.UnsyncedEntries | internal/changelog/store.go:121-130 | Every entry of the pair (or of all) with synced = 0 once, and no other, in the order of stamp texts |
| Stores.Store.EntriesSince | internal/changelog/store.go:133-142 | The same for the entries whose stamp text is after the cursor |
| Stores.Store.CurrentHlc | internal/changelog/store.go:197-207 | The greatest stamp text of all rows, or the given next one if there are none |
| StampTexts.ListedInTime | internal/changelog/store.go:121-130 | Where the column holds printed stamps, no entry is listed before an earlier one, unless the two stamps clash, and then the later comes first |
| StampTexts.AfterCursor | internal/changelog/store.go:133-142 | An entry is after the cursor exactly if it is later, unless it clashes with the cursor, and then exactly if it is earlier |
| Pruning.PrunesOutdated | internal/changelog/maintenance.go:35-61 | With printed creation times and cutoffs, a maintenance pass removes exactly the rows with both flags created before the retention time and the deletes created before the tombstone time, unless row and cutoff share a second and the digits of one are a proper prefix of the other's |
| Pruning.MisreadsAreWrong | internal/changelog/maintenance.go:35-47 | In that excepted case a row with both flags is kept exactly if it is outdated |
| Stores.Store.Maintain | internal/changelog/maintenance.go:26-33 | The two together are the pruning step of the state machine |
| KeepBothPolicy.EvacuationKeepsContent | internal/reconciler/conflict.go:104-121 | A move loses no content and leaves every other file, unless its target name is taken |
| KeepBothPolicy.EvacuationsNeverOverwrite | internal/reconciler/reconciler.go:94-176 | After a whole keep_both pass over any order of keys, whatever else fails, each file of the running node is in its place or, exactly for the keys edited on both sides whose move succeeds, under its own conflict name and not at its path, and no other file appears; for plain node names and conflict names that are no file or key of the cycle |
| KeepBothPolicy.TurnApart | internal/reconciler/reconciler.go:94-176 | Under every policy the turn of one key leaves the files of another on both nodes and its block (keep_both: outside the conflict directory) |
| KeepBothPolicy.TargetElsewhere | internal/reconciler/conflict.go:110-114 | The conflict name is never the path itself |
| KeepBothPolicy.KeepBothEmptiesPath | internal/reconciler/conflict.go:68-81 | Two edits of a path: whichever wins, the file leaves the path, the peer's tree is not touched, and both entries count as settled |
| KeepBothRuns.KeepBothOutcome | internal/reconciler/reconciler.go:133-175 | An edit as newest pending entry of a path on both nodes under keep_both, any number of older ones, one clean cycle of each, overlapped in any way, no other event of the path, and the path outside the conflict directory: at least one fetch sees an edit of the path; a node whose fetch saw none has its own file at the path on both nodes, whatever the stamps; if both saw one the path is empty on both |
| KeepBothRuns.LastWriteStandsIff | internal/reconciler/conflict.go:68-81 | So the last write, by the newest entries, stands on both nodes if and only if it was the winner's fetch that saw no edit, or the loser's saw none and the two files are the same |
| KeepBothRuns.UnseenIffMarked | internal/reconciler/reconciler.go:74-82 | A fetch sees no edit exactly if the other node has marked its newest by then and its next pending entry of the path is absent or a delete |
| KeepBothRuns.SeenIsSetAside | internal/reconciler/conflict.go:104-121 | A node whose fetch saw an edit has its own file in the conflict directory under the name of the entry it takes for the loser, if no other key of the run lies in that directory and node names and clock texts have no dot or slash |
| EmptiedPath.PathCanEmpty | internal/reconciler/reconciler.go:133-175 | A run of this kind in which both saw the other's edit, and the path is empty on both nodes |
| KeepBothPolicy.KeepBothElseLww | internal/reconciler/conflict.go:68-81 | In every other case keep_both does what lww does; when the move fails nothing changes and neither entry is settled |
| ConflictNames.ConflictNameInjective | internal/reconciler/conflict.go:110-114 | The conflict name determines path, node and second, for node names without dot and slash |
| ConflictNames.NameShape | internal/reconciler/conflict.go:110-114 | Node and second stand, in this order, before the extension of the last path component, or at the end if it has none |
| ConflictNames.DottedNamesCollide | internal/reconciler/conflict.go:110-114 | With a dot in a node name two paths can get one conflict name |
| HlcText.HlcRoundTrip | internal/changelog/hlc.go:95-114 | Parsing a printed stamp gives back exactly its time and counter, for every UTC time of the years 0000 to 9999 and every 32-bit counter |
| HlcText.TimeRoundTrip | internal/changelog/hlc.go:95-107 | The same for the date-time alone, through the trimming of the fraction (section 5.6 of RFC 3339) |
| HlcParse.StampParsesIff | internal/changelog/hlc.go:99-114 | A text parses as a stamp if and only if it is a text that writes that time, a colon, and a text that writes that counter |
| HlcParse.TimeParsesIff | internal/changelog/hlc.go:104-107 | A text writes a time exactly if it is valid, has date and time of day in full, then "Z", or a dot or comma, any number of digits and "Z", where the first nine digits, filled up with zeros, are the nanoseconds |
| HlcParse.CounterParsesIff | internal/changelog/hlc.go:108-113 | A text writes a counter exactly if it is its hexadecimal numeral in any width, with letters of either case, of at most 32 bits |
| HlcParse.PrintedShape | internal/changelog/hlc.go:95-97 | A printed stamp is the time, a colon, and eight hexadecimal digits in lower case |
| Calendar.DaysOfMonth | internal/changelog/hlc.go:104-107 | A valid day is within its month: the months have the days by which the table 0, 31, 59, up to 365 grows, February one more in a leap year |
| Calendar.LeapCount | internal/changelog/hlc.go:104-107 | Before any year there are as many leap years as multiples of 4, less those of 100, plus those of 400, from year 0 on |
| HlcText.InstantInjective | internal/changelog/hlc.go:49-53 | Different valid times are different instants |
| HlcOrder.OrdersAgreeIffNoClash | internal/changelog/hlc.go:38-60 | String order and CompareHLC agree on printed stamps if and only if not both lie in one second with one trimmed fraction a proper prefix of the other; if they do, the orders are opposite |
| HlcOrder.NoClash | internal/changelog/hlc.go:95-97 | Stamps of different seconds or of equal fraction width never clash |
| HlcOrder.CursorAndMax | internal/changelog/store.go:132-142 | Where nothing clashes with it, the SQL cursor selects exactly the later entries, and a text maximum is a CompareHLC maximum |
| HlcOrder.CompareDecodes | internal/changelog/hlc.go:38-60 | On printed stamps CompareHLC compares instants, then counters |
| HlcOrder.CompareIsPreorder | internal/changelog/hlc.go:38-60 | On texts that parse CompareHLC is a total preorder whose ties are equal stamps |
| HlcOrder.CompareCanCycle | internal/changelog/hlc.go:38-48 | With one text that does not parse it can run in a circle |
| HlcOrder.CutoffRightIffNoClash | internal/changelog/maintenance.go:35-39 | The text comparison of creation time and cutoff is right if and only if the row is not in the cutoff's own second with one written fraction a proper prefix of the other |
| HlcClock.Hlc.Tick | internal/changelog/hlc.go:62-72 | The clock makes the abstract tick, and the text shows the new state |
| HlcClock.Hlc.Receive | internal/changelog/hlc.go:74-92 | The clock makes the abstract receive, and the text shows the new state |
| HlcClock.Hlc.ReceiveText | internal/changelog/hlc.go:29-35 | A malformed text is an error and leaves the clock alone; otherwise the clock makes the abstract receive of the decoded stamp |
| HlcClock.TickAdvancesIff | internal/changelog/hlc.go:62-72 | A tick moves forward if and only if the wall clock leads or the 32-bit counter does not wrap |
| HlcClock.ReceiveAdvancesIff | internal/changelog/hlc.go:74-92 | A receive moves past both stamps if and only if the wall clock leads or the counter it carries on does not wrap |
| HlcClock.CounterBound | internal/changelog/hlc.go:62-92 | The counter never exceeds the largest received one plus the number of steps |
| HlcClock.CounterIsLargestCount | internal/changelog/hlc.go:62-92 | In a run too short for the counter to wrap, the counter is exactly the largest of the counts that began at the physical time the clock shows: from the start with its counter there, from a receipt with the received counter, or from nothing when the wall clock showed that time; every event since counts |
| HlcClock.TicksSinceChange | internal/changelog/hlc.go:62-72 | Over ticks alone it is the number of ticks since the physical part last changed, on top of the counter at the start if it never did |
| HlcClock.LeadResets | internal/changelog/hlc.go:65-67 | When the wall clock takes the lead the counter starts again from 0, on a tick and on a receipt |
| HlcClock.PhysicalIsMaximum | internal/changelog/hlc.go:116-132 | The physical part is always one of the readings seen, and the largest |
| HlcClock.LaterThanAll | internal/changelog/hlc.go:62-92 | In a run too short for the counter to wrap every state is later than all before it and all received |
| HlcClock.IssuedStampsIncrease | internal/changelog/hlc.go:62-92 | So every printed stamp is greater under CompareHLC than all stamps issued or received before, whatever the wall clock does |
| HlcClock.HappensBeforeIsStampedLess | internal/changelog/hlc.go:74-92 | Over any number of clocks exchanging stamps, happens-before implies a smaller stamp under CompareHLC |
| Debounce.ConservationAlways | internal/watcher/debounce.go:53-110 | At every point of every interleaving of pushes, late callbacks, sends, flushes and receives, between a flush's stop of a timer and its send too: pushes = received + buffered + in flight + pending + superseded, event by event; each pending event is its key's latest push and has an armed timer, a waiting callback, or the flush that is about to send it; the table stays within 100000 |
| Debounce.ExtractsLatest | internal/watcher/debounce.go:71-77 | Whatever leaves the table is its key's latest push at that moment, even when an old timer's callback takes it |
| Debounce.NothingOvertakes | internal/watcher/debounce.go:79-85 | What has been sent, to the consumer or into the channel, is at every later point of every interleaving a prefix of what has been sent then: it is received in the order sent |
| Debounce.SentInPlace | internal/watcher/debounce.go:98-108 | What a callback or a flush sends comes directly after all that was sent before |
| Debounce.OneTimerPerBurst | internal/watcher/debounce.go:63-89 | At every point there are as many timers as pushes that replaced no pending event, and no more running timers and waiting callbacks than pushes |
| Debounce.EveryPushCounts | internal/watcher/debounce.go:53-62 | At every point each event has been taken in as often as it was pushed, but for a push that found the table full and waits for its flush |
| Debounce.OneCallbackPerFiring | internal/watcher/debounce.go:69-75 | The callbacks that ran and those that wait for the mutex are as many as the timers that went off |
| Debounce.PushArms | internal/watcher/debounce.go:63-89 | A push below the limit leaves its event pending with the timer running: the key's old one, set anew even if it had gone off, or a new one |
| Debouncers.Debouncer.FlushLocked | internal/watcher/debounce.go:98-110 | Emits each pending event once in some order and empties the table exactly if pending plus buffered fit the channel; otherwise it blocks with the channel full and the timer of one more event stopped |
| Debouncers.Debouncer.Push | internal/watcher/debounce.go:53-89 | Below the limit the key gets the new event, with its old timer reset or a new one; at the limit the flush blocks |
| Debouncers.Debouncer.TimerCallback | internal/watcher/debounce.go:69-75 | Takes whatever is pending under the key now, or nothing |
| Debouncers.Debouncer.FlushAll | internal/watcher/watcher.go:91-104 | Completes if and only if pending plus buffered are at most 1024, and then writes the buffered and the pending events, each once, leaving nothing |
| Debouncers.WrittenOnce | internal/watcher/watcher.go:91-104 | Each event is written as often as it was buffered, plus once if it was pending |
| Debouncers.FlushAllAccountsForAll | internal/watcher/watcher.go:91-104 | With no callback in flight every push of the whole history was received, is written now, or was superseded |
| Fanotify.ReadEvents | internal/watcher/watcher.go:212-228 | Terminates within bounds on every buffer and hands on what the walk finds |
| Fanotify.WalkVisitsAll | internal/watcher/watcher.go:217-227 | On a concatenation of well-formed events, followed by any bytes that do not begin with one (too few, or a length too small or too large), exactly the events of version 3, in order |
| Fanotify.KnownPlaces | internal/watcher/watcher.go:223-225 | As many events are handed on as have version byte 3, and each of them stands at the place that follows those before it |
| Fanotify.VisitRecord | internal/watcher/watcher.go:301-343 | One info record's directory and file name, with every early exit of the switch |
| Fanotify.ResolveFidPath | internal/watcher/watcher.go:291-348 | Terminates within bounds on every byte sequence and every header length |
| Fanotify.ResolvesFirst | internal/watcher/watcher.go:291-348 | On well-formed info records, followed by any bytes that do not begin with one: the directory of the first resolvable one of the kinds 1 to 3, and the last name among the records up to it, which only kind 2 carries; nothing if none resolves |
| Filters.Filter.Excluded | internal/watcher/filter.go:31-49 | The nested loops decide exclusion; on clean paths that is: some component prefix, or the last component of one, matches some pattern |
| Filters.ExcludedIffPrefixMatches | internal/watcher/filter.go:31-49 | The looked-up prefixes and components are exactly the component prefixes and their last components |
| Filters.BelowExcluded | internal/watcher/filter.go:28-30 | Everything below an excluded path is excluded |
| Config.ValidatePairs | internal/config/config.go:300-316 | Accepts exactly the lists of usable, pairwise non-overlapping directories, and otherwise reports the first offending entry with its reason |
| Config.SyncPairByName | internal/config/config.go:336-344 | The first pair of that name, or none if there is none |
| Config.OverlapIffShared | internal/config/config.go:311-314 | Away from "/", two roots can share a file if and only if they are called overlapping |
| Config.RootEscapesTheCheck | internal/config/config.go:311-314 | "/" shares files with every other root, and the check lets it pass |
| Config.AcceptedPairsDisjoint | internal/config/config.go:300-316 | Two accepted pairs own disjoint files if and only if neither root is "/" |

## Left out

- Renames: the rename event kind, applyRename and RenameFile; the watcher never emits a rename (`internal/watcher/watcher.go:358-376`).
- Directory trees below a deleted path (RemoveAll of a subtree), symbolic links and resolveInPair; a path that is rejected there counts as a call that fails.
- SQLite itself: statements are atomic, and rows with equal stamp texts come in any order. The metadata table.
- gRPC, TLS, the shared secret, rsync over SSH with its retries, notifications, logging, the command line, loading of the configuration, and the recovery walk, which only appends entries.
- The delete event that a node's watcher records for a removal done by its own DeleteFile handler, and the events of a move into the conflict directory; the state machine has them as ordinary appends, and the runs of the convergence results and of those about one path have none for the path at stake.
- Blocking of goroutines on the full channel and on the mutex: in the object a method that would block reports that it did not finish; in the interleavings the step is not enabled.
- HlcOrder.CompareIsPreorder: does not cover date-times with a numeric offset or a one-digit hour, which time.Parse also takes; here they count as texts that do not parse. Leap seconds.
- HlcClock.Hlc.ReceiveText: does not accept such texts either, so it reports an error where the source would take the stamp.
- Convergence.TreesConverge: not from a state in the middle of a cycle and not with deletes in the logs, where convergence can fail (`MidCycle.AgreeIff`, `LateEdit.HeldBackIff` and `OldestLast.OldestDecides` say when the trees agree on one path).
- Glob matching: a compiled pattern is an arbitrary predicate.
- Pointwise.OrderIndependence: not for keep_both, whose moves may write the path of another key.
- Paths inside the conflict directory under keep_both: a move may write there, so the results about one path under keep_both are about the others.
- mergeKeys as a map: the merged keys are the union of the two key sets, and a key carries its pair.
- What processEvent does between the two walks and the debouncer: path prefixes, own process ids, rsync processes, classifyMask.
- Byte order: a little-endian host.
