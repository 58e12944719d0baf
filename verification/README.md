# Flightdeck: sync protocol, mailbox, outbox and kernels

A Dafny model of the parts of Flightdeck whose correctness is not visible from any one function:
two instances keeping one project in step over a mailbox server, and four smaller algorithms.

**Sync.** `SyncProtocol` has the payloads and the row columns, `ItemMerge` the conflict merge and its
note, `ShareState` what one instance keeps about one item (row, echo guard, agreed base) and how an
arriving row or an outbound pass changes it. Three modules reason about runs: `EchoBound` (one side,
arbitrary deliveries and crashes), `TwoSides` (both sides and the queues between them: traffic is
bounded, rounds lead to rest) and `Convergence` (where they come to rest). `Replicas` lifts the one-row
protocol to an instance's tables, and `SyncEngine` is the imperative engine, each method proved equal
to a function of `Replicas`. `ActivityEcho` does the same for activity rows.

**Courier.** `Mailbox` is the rendezvous server: sequence numbers, message files, leases that a
restart forgets, as a specification of one mailbox and as the class `Store` over all of them.
`Courier` composes it with the receiving engine, with receivers that die in mid-batch, database
faults, lost acks, restarts and deletion. On top of it, `Redelivery` says what redelivered mail does to a row,
`OneWay` whether a share edited on one side agrees when it comes to rest, and `Wedge` what a message
that can never be applied costs. `Threads` follows one item through a stream of mail, and `Sharing`
closes the circle: two full instances, each with its tables and its mailbox, taking in batches,
sending out and editing in any order. Every item of that share lives a run of `TwoSides`, so the
convergence results hold there too; `ConflictNotes` adds the notes both sides end up with. `Dealt` says
what the mail makes of the activity and project tables. (`Sharing` leaves interruptions out: its batches are taken in
whole. What interruptions do is the subject of `Courier`, `Redelivery` and `OneWay`.)

**Kernels.** `RankFusion` (reciprocal-rank fusion over exact reals), `RateLimit` (token bucket with idle
eviction), `Webhooks` (outbox with per-subscriber tracking, backoff and dead letters),
`ProjectForest` (descendant closure and cycle check), `TreeOrder` (the flattened project tree of the
web pickers) and `Embedder` (the embedding backlog, with poison rows isolated).

Each module with state in place is a class whose methods are proved equal to a specification
function; the properties are lemmas about that function over all inputs or all runs.

## What turned out false, and when exactly it holds

- The merge is announced as byte-identical on both sides (internal/sync/engine.go:228-232). It
  reconciles neither external reference, metadata, acceptance criteria and closing time nor two
  different deletion times, and the upsert keeps the local creation time.
  `Convergence.CrossingConvergesIff`: all interleavings converge if and only if the rows agree on those.
- Sending does not advance the base (internal/store/sharing.sql.go:498-503), so a peer's later edit of a row
  that was once sent is merged although nobody edited concurrently. `Convergence.TakingTurns` says
  for which rows the edit arrives, and for which the two sides stay different with nothing left to
  send. A status change by the instance with the lower id is of the second kind exactly when it
  neither closes nor reopens the item; closing and reopening are undone on both sides,
  except for the closing time the update wrote along (`Convergence.StatusEditSettles`).
- Displaced scalars are announced as recorded (internal/sync/engine.go:224-226). Only title, status and
  priority are. `ItemMerge.LostExactly` says column by column and side by side what is lost, and
  `ItemMerge.NothingLostIff` on which rows nothing is.
- The earliest creation time is announced as kept (internal/sync/engine.go:259). `ShareState.EarliestCreationKeptIff`.
- Every apply is announced as idempotent, so that redelivery is safe (internal/sync/engine.go:93-94). Applying
  a message again is harmless only under the condition of `Convergence.ApplyChangesNothingIff`, and a
  redelivery comes a lease later, after newer mail. The row ends as the last message dealt with, and
  the newest version survives if and only if that one says the same (`Redelivery.NewestSurvivesIff`).
  One lost ack is enough to drop it for good and to leave the two sides at rest on different rows
  (`Redelivery.LostAckDropsNewest`, `OneWay.OneLostAckParts`, `OneWay.RestsTogetherIff`).
- Activity rows are announced as never conflicting (internal/sync/protocol.go:81-82). A row that arrives before
  its item is stored without it, differs from what was received, and is sent back and forth for ever.
  `ActivityEcho.EchoesForeverIff`.
- At most one acknowledged POST per subscriber (internal/service/webhooks.go:86-89) holds on all runs with a
  given pattern of lost event-row updates if and only if none before the last is lost
  (`Webhooks.AtMostOnceIff`); `Webhooks.MostAcksDecide` has the exact maximum for every pattern.
- Eight attempts are announced as the end of an event (internal/service/webhooks.go:89-91). Failed subscriber
  lookups are recorded as attempts and never park it, and lost updates are not recorded.
  `Webhooks.FinishedIff` has the exact condition for every pattern of the two; rounds with a failing
  POST are bounded by `Webhooks.EightFailuresAndLosses`.
- Undecryptable mail is cleared so that it cannot wedge a share (internal/sync/engine.go:109-111); a payload
  that does not decode is not. The message itself never leaves, the mailbox can be emptied if and only
  if there is none (`Wedge.EmptiesIff`), and what lies before it is applied again after each lease
  (`Wedge.PoisonReplays`). Other mail does get through, in batches that do not hold it
  (`Wedge.PullOutcome`).
- A crash between message file and counter is announced as harmless (internal/mailbox/mailbox.go:250-252).
  `Mailbox.CrashHarmlessIff`.
- The janitor is harmless exactly when an idle bucket refills within ten minutes. `RateLimit.BoundIff`.
- Parking is meant for poison content (internal/service/embedder.go:28-29). An answer that says nothing about
  the content parks every row exactly when its code is a 4xx other than 429, such as the 401 of a
  revoked key. `Embedder.OneAnswerParksIff`.
- Blobs are said to be removed before the rows (internal/service/projects.go:47-48); the code removes
  them after, and the model follows the code.

## Model

| member | source | states |
|---|---|---|
| `ItemMerge.MergeBodyKeepsBoth` | internal/sync/engine.go:221-258 | The merged text contains both texts as substrings and is at most their lengths plus the separator long. |
| `ItemMerge.LowerTextFirst` | internal/sync/engine.go:230-258 | On either side the merged text is the lower id's text, the separator and the higher id's text when neither holds the other, and the longer text when one does. |
| `Prelude.LessIsDictionaryOrder` | internal/sync/engine.go:230-232 | "Lower" is the dictionary order of the ids: a proper prefix first, else the first difference decides. |
| `ItemMerge.MergeSymmetric` | internal/sync/engine.go:228-269 | For distinct ids both instances reach the same title, status, priority, type, assignee, tags, body, creation time and deletedness; the whole rows are equal if and only if they agreed on external reference, metadata, acceptance criteria, closing time and (when both are deleted) deletion time. |
| `ItemMerge.MergeBodyAbsorbs` | internal/sync/engine.go:240-258 | Merging the merged text again with either original, either way round, returns it unchanged. |
| `ItemMerge.MergeAbsorbs` | internal/sync/engine.go:221-269 | A merge meeting either original again, in every role it can have on the side that holds it, keeps every reconciled field: re-exchange never grows a row. |
| `ItemMerge.CrossingNotesLosers` | internal/sync/engine.go:271-301 | In a crossing the lower id writes down each differing title, status or priority it gives up, with both values, and the higher id writes down nothing. |
| `ItemMerge.LostExactly` | internal/sync/engine.go:233-285 | For every column besides id, body and creation time, and for both sides of a crossing: exactly when the value held there is replaced without a note. The lower id loses differing type, assignee and tags; both lose differing external reference, metadata, acceptance criteria and closing time, and a deletion state that differs from the peer's deletion. |
| `ItemMerge.NothingLostIff` | internal/sync/engine.go:224-226 | Nothing displaced is lost, on either side, if and only if the rows agree on type, assignee, tags, external reference, metadata, acceptance criteria, closing time and deletion time. |
| `ShareState.ApplySettles` | internal/store/sharing.sql.go:433-484 | After any apply the row counts as agreed; it is unsent afterwards only if the apply was a merge, and then exactly if the result is not what was last sent. |
| `ShareState.EarliestCreationKeptIff` | internal/sync/engine.go:259-262 | The earliest creation time survives a merge exactly when it is the local one: the upsert never writes the column of an existing row. |
| `SyncProtocol.UpsertOwnColumns` | internal/store/sharing.sql.go:598-628 | A new row starts at version 1 in the share's project; an existing one keeps project, id and creation time and moves its version by one. |
| `EchoBound.EchoBounded` | internal/sync/engine.go:165-218 | Over every run of edits, arbitrary (repeated, reordered, invented) deliveries, passes and crashes between two writes: merges and sends are bounded by edits, merges and crashes, with one in hand for a row still dirty or unsent. |
| `EchoBound.NoEchoLoop` | internal/sync/engine.go:390-426 | Without crashes a row is merged at most 1 + edits times and sent at most 1 + edits + merges times. |
| `TwoSides.TrafficBounded` | internal/sync/engine.go:75-90 | From any state, on any interleaving, the two sides exchange at most the initial potential plus four messages per edit. |
| `TwoSides.RoundsBringQuiet` | internal/sync/engine.go:75-90 | As many rounds without edits as the potential leave both mailboxes empty and nothing to send. |
| `Convergence.CrossingStays` | internal/sync/engine.go:165-218 | Invariant of every interleaving after a crossing: each side either still has the peer's edit to read or holds the merge, and everything else in flight is that merge. |
| `Convergence.CrossingConverges` | internal/sync/engine.go:221-232 | Crossing edits of rows that agree on the unreconciled fields leave, whenever the share comes to rest, the one merged row on both sides, clean. |
| `Convergence.CrossingText` | internal/sync/engine.go:230-258 | At rest after a crossing of clashing texts both sides show the lower id's text, the separator and the higher id's text. |
| `Convergence.CrossingDiverges` | internal/sync/engine.go:233-269 | Rows that disagree on an unreconciled field come to rest different when both sides merge before either merge arrives. |
| `Convergence.CrossingConvergesIff` | internal/sync/engine.go:221-232 | Every interleaving that comes to rest leaves equal rows if and only if the two edits agree on what the merge and the upsert do not reconcile. |
| `Convergence.CrossingSettles` | internal/sync/engine.go:165-218 | Six rounds, however interleaved inside, settle any crossing of agreeing rows on the merge with nothing left to send. |
| `Convergence.FirstShareHandsOver` | internal/store/sharing.sql.go:486-511 | Sending a new row and pulling it leaves both sides with equal rows, but the sender's base not advanced. |
| `Convergence.FollowingEditSettles` | internal/sync/engine.go:165-218 | At rest after such an edit the first sender holds the merge of its old row with the edit, and the editor holds it too, unless it is exactly what had been sent. |
| `Convergence.FollowingMergeCases` | internal/sync/engine.go:233-269 | When that merge is the edit itself, and when it is the old row, as conditions on the two rows and the two ids alone. |
| `Convergence.TakingTurns` | internal/store/sharing.sql.go:500-503 | Two people taking turns: the edit shows on the other side if and only if EditGetsThrough, and the sides differ for good if and only if EditIsSwallowed. |
| `Convergence.StatusEditOfLowerIdIsSwallowedIff` | internal/store/items.sql.go:365-381 | A later status edit by the lower id, with the closing time the update writes along, is swallowed if and only if it neither closes nor reopens the item. |
| `Convergence.StatusEditSettles` | internal/store/items.sql.go:365-381 | Where every later status edit ends, on every interleaving that comes to rest: by the higher id it arrives; by the lower id the old status wins, and if the edit closed or reopened the item it is undone on the editor's side too, both rows keeping the old status with the new closing time. |
| `Convergence.SendersNextEditArrives` | internal/sync/engine.go:165-218 | The side that shared last may go on: each of its edits arrives as written and leads to the same kind of state, on every interleaving that comes to rest. |
| `Convergence.CleanEditArrives` | internal/sync/engine.go:165-218 | From a state both sides count as agreed the other side's edit arrives as written as well. |
| `Convergence.FollowingEndsClean` | internal/sync/engine.go:165-218 | The receiver's edit, unless swallowed, leaves both sides agreed on the merge, so the next turn of either side is free. |
| `Convergence.RedeliveryHarmlessIff` | internal/sync/engine.go:92-94 | The same message applied twice in immediate succession: the second time changes nothing if and only if the first was a straight apply or a merge that kept nothing local; otherwise it puts the peer's row in the merge's place. |
| `Convergence.ApplyChangesNothingIff` | internal/sync/engine.go:165-218 | A message applied to any row, whatever came in between, changes nothing if and only if, for an edited row, everything in it is swallowed, and for an unedited one the row says the same already. |
| `Replicas.BatchProgress` | internal/sync/engine.go:92-135 | A batch finishes if and only if no message of it blocks; what was dealt with is what comes before the first blocking message, and the instance stays who it is. |
| `Replicas.ReceiveTouchesOneItem` | internal/sync/engine.go:155-219 | Receiving an item acts on that item's row and hashes as the one-row protocol says and on no other; activity and project messages touch no item. |
| `Replicas.NoteOnDisplacement` | internal/sync/engine.go:173-218 | Receiving an item writes exactly one note, with the row's id and project, the peer's name or the fallback, and own and stored value of exactly the fields that changed, when the row had been edited and its title, status or priority gives way; otherwise none. |
| `Replicas.NotesOnlyGrow` | internal/sync/engine.go:137-153 | No message takes a note back. |
| `Replicas.PushSendsPending` | internal/sync/engine.go:390-464 | An outbound pass sends, in order, the first room rows whose content differs from what was sent, and succeeds if and only if all fit. |
| `Replicas.CompletePushPushesItem` | internal/sync/engine.go:397-426 | A completed pass over the tables is the one-row push on every item it lists. |
| `Replicas.PassReachesEveryRow` | internal/sync/engine.go:390-464 | Over the tables: a pass carries every due row of the share once and nothing else, project first, then items, then activity by creation time, as far as there is room; one that completes leaves no project, item or activity row with anything to send. |
| `SyncEngine.Engine.UpsertSyncedItem` | internal/store/sharing.sql.go:598-628 | Inserts the payload, or overwrites everything but the creation time, and returns the stored row. |
| `SyncEngine.Engine.LogConflict` | internal/sync/engine.go:271-301 | Appends the one note that names the displaced values, or none when nothing was displaced. |
| `SyncEngine.Engine.ApplyItem` | internal/sync/engine.go:155-219 | The imperative apply (read hashes, branch, merge, note, upsert, record) leaves exactly the replica ReceiveItem defines. |
| `SyncEngine.Engine.ApplyActivity` | internal/sync/engine.go:321-361 | Inserts at most once, drops a reference to an absent item, and records the hash of what arrived. |
| `SyncEngine.Engine.ApplyProject` | internal/sync/engine.go:363-385 | Overwrites the project fields without conflict detection and records both hashes. |
| `SyncEngine.Engine.ApplyMessage` | internal/sync/engine.go:137-153 | Dispatches by kind: unknown kinds are skipped, malformed payloads and database failures stop the batch. |
| `SyncEngine.Engine.PullInbound` | internal/sync/engine.go:92-135 | The loop deals with exactly the batch PullBatch defines, reports for the ack what it got through, and fires the change hook once if the ack went through and something foreign was applied. |
| `SyncEngine.Engine.PushOutbound` | internal/sync/engine.go:390-464 | Working from hashes read once before, sends the due rows of the share once each in the order project, items, activity by creation time, as far as there is room; if it completes, nothing of the share is left to send. |
| `ActivityEcho.StoredEqualIff` | internal/sync/engine.go:337-350 | The stored row has the content that arrived if and only if the item it hangs on was present. |
| `ActivityEcho.EchoesForeverIff` | internal/sync/protocol.go:81-83 | A row sent once reaches rest, equal on both sides, if and only if its item was present at the receiver; otherwise no interleaving ever stops the exchange. |
| `Mailbox.HandOutIsFirstVisible` | internal/mailbox/mailbox.go:259-305 | Receive hands out exactly the first limit messages not under lease. |
| `Mailbox.HandOutOrdered` | internal/mailbox/mailbox.go:208-226 | They come in strictly increasing sequence order, are stored, and were not leased. |
| `Mailbox.RunKeepsValid` | internal/mailbox/mailbox.go:228-325 | So does every run, restarts included, and the counter never goes back. |
| `Mailbox.NumbersNeverReused` | internal/mailbox/mailbox.go:228-257 | Of two accepted sends the later one gets the larger number. |
| `Mailbox.NoRedeliveryWithinLease` | internal/mailbox/mailbox.go:259-302 | Without a restart in between, a message handed out twice was handed out at least LeaseTTL apart. |
| `Mailbox.AckedNeverReturns` | internal/mailbox/mailbox.go:307-325 | An acked message is never handed out again, restarts or not. |
| `Mailbox.CrashHarmlessIff` | internal/mailbox/mailbox.go:250-257 | A crash between message file and counter, then a pull, the sender's retry and the ack: the retried message survives if and only if the half-sent one found no room in that pull; else the ack for the first deletes the second. |
| `Mailbox.CrashedRetryNeverGoesOut` | internal/mailbox/mailbox.go:250-257 | In the other case the accepted retry is never handed out by any later operation. |
| `Mailbox.LeaseOut` | internal/mailbox/mailbox.go:272-304 | The receive loop computes the specified hand-out and the specified lease table. |
| `Mailbox.RemoveFiles` | internal/mailbox/mailbox.go:315-324 | The ack loop removes exactly the named files and leases and counts the files that existed, repeated numbers included. |
| `Mailbox.Store.Create` | internal/mailbox/mailbox.go:169-206 | Refuses beyond MaxMailboxes, otherwise adds one empty mailbox counting from 1 and touches no other. |
| `Mailbox.Store.Send` | internal/mailbox/mailbox.go:228-257 | Unknown and full mailboxes are refused unchanged; otherwise the message is stored under the returned number; other mailboxes are left alone. |
| `Mailbox.Store.Receive` | internal/mailbox/mailbox.go:259-305 | Hands out and leases on the named mailbox as specified; other mailboxes are left alone. |
| `Mailbox.Store.Ack` | internal/mailbox/mailbox.go:307-325 | Deletes as specified, returns how many messages that was, and leaves other mailboxes alone. |
| `Mailbox.Store.Delete` | internal/mailbox/mailbox.go:327-337 | Removes one mailbox with its leases; a missing one is an error. |
| `Courier.SoundRun` | internal/mailbox/mailbox.go:228-325 | Invariant of every run of sends, pulls with deaths, faults and lost acks, restarts and deletion: files carry what was accepted under their number, only dealt-with messages are acked, and the receiver's state replays its ledger. |
| `Courier.NothingAcceptedIsLost` | internal/sync/engine.go:92-135 | In every such run each accepted message is on file with its body, or was dealt with, or its mailbox was deleted; the receiver's state is what the messages dealt with make of its first state. |
| `Courier.FailedBatchAcksNothing` | internal/sync/engine.go:92-135 | A batch with a blocking message, a dead receiver or a lost ack removes nothing from the mailbox. |
| `Courier.InterruptedPullIsOvertaken` | internal/mailbox/mailbox.go:272-302 | After a pull that is interrupted by a death, a failing message or a lost ack, whatever lies behind its batch or is sent in the meantime is handed out before it, until its lease runs out. |
| `Courier.SmoothRunIsQueue` | internal/mailbox/mailbox.go:259-325 | While no pull is interrupted the mailbox is a first-in first-out queue delivering each message once. |
| `Courier.SmoothPullsDrain` | internal/sync/engine.go:92-135 | n such pulls empty a backlog of at most n batches, and the receiver has applied every accepted message in order. |
| `Courier.PullShare` | internal/sync/engine.go:75-135 | The server and the engine, called as the exchange calls them, make of mailbox and receiver what the courier model says, with database faults, a lost ack and the process dying after any number of messages; and the pass returns without error exactly when the process lived, the batch went through and the ack, if one was due, arrived. |
| `Redelivery.RowIsLastInLedger` | internal/sync/engine.go:92-135 | In every run of the courier, however interrupted, a receiver that does not edit an item ends with the last message about it that it dealt with, agreed and (unless that one message met an earlier edit) with nothing to send. |
| `Redelivery.NewestSurvivesIff` | internal/sync/engine.go:92-94 | The newest accepted version survives at the receiver if and only if the last one it dealt with says the same. |
| `Redelivery.UninterruptedKeepsNewest` | internal/sync/engine.go:92-135 | In runs without interruption it always does, once everything is dealt with. |
| `Redelivery.LostAckDropsNewest` | internal/mailbox/mailbox.go:272-302 | The failing input: two versions, the ack of the first lost, one pull within its lease and one after. Everything is acked, the mailbox is empty, and the receiver holds the older version with nothing to send. |
| `OneWay.RestsTogetherIff` | internal/sync/engine.go:75-90 | A share edited on one side, with every kind of interruption: at rest both sides hold the same row, creation time apart, if and only if the last message about it dealt with says what the newest says; otherwise they differ and neither has anything to send. |
| `OneWay.ReceiverSilent` | internal/sync/engine.go:390-426 | In all of that the receiver never has the item to send. |
| `OneWay.OneLostAckParts` | internal/sync/engine.go:75-135 | One lost ack, an edit and two pulls are enough to bring such a share to rest on different rows. |
| `Wedge.PullOutcome` | internal/sync/engine.go:92-135 | The whole effect of a pull that nothing interrupts: what it hands out before the first undecodable payload is applied, that one and what it hands out behind it are held back with the batch for a lease, and a batch without one is applied and acked. |
| `Wedge.PoisonNeverLeaves` | internal/sync/engine.go:112-135 | In every run an accepted foreign message whose payload does not decode is never dealt with and never acked; it stays on file until the mailbox goes. |
| `Wedge.PoisonBatchAcksNothing` | internal/sync/engine.go:112-135 | No pull whose batch holds such a message acks anything, interrupted or not. |
| `Wedge.EmptiesIff` | internal/sync/engine.go:92-135 | After any history, enough uninterrupted pulls from when no lease runs empty the mailbox if and only if nothing ever accepted is such a message. |
| `Wedge.PoisonReplays` | internal/mailbox/mailbox.go:272-302 | On any schedule of sends and uninterrupted pulls, what lies before such a message in the first batch is applied again, whole and in order, in exactly the pulls that find it free of its lease, and is never acked. |
| `Threads.ItemFollowsItsMail` | internal/sync/engine.go:92-219 | Whatever else is in the mail, an item comes out as if only the messages about it had been applied, in order. |
| `Threads.CourierRefinesQueue` | internal/sync/engine.go:92-135 | The receiving side alone: behind a mailbox whose pulls are not interrupted, an item's row and hashes are those the two-sided model reaches by pulling its queue. |
| `Sharing.SendOutCell` | internal/sync/engine.go:390-464 | An outbound pass leaves an item alone or sends it once as it stands; one that goes through leaves nothing of it unsent. |
| `Sharing.ShareFollowsTwoSides` | internal/sync/engine.go:75-90 | Two instances with their tables and mailboxes, taking in, sending out and editing in any order, with any other rows and messages about: each item lives a run of the two-sided protocol. |
| `Sharing.ShareConverges` | internal/sync/engine.go:221-232 | Crossing edits of an item in such a share, not touched any more while everything else goes on: whenever nothing about it is in the mailboxes or due, both instances hold the one merged row, agreed. |
| `Sharing.ShareSettles` | internal/sync/engine.go:75-90 | And it gets there: six rounds, in each of which both instances once empty their mailbox and once get a pass through, leave that merged row on both and nothing about the item under way. |
| `Sharing.ShareComesToRest` | internal/sync/engine.go:75-90 | Any item in any state comes to rest in as many such rounds as its potential. |
| `Sharing.ShareTakesTurns` | internal/store/sharing.sql.go:500-503 | The conditions for a later edit to arrive, or to be swallowed, hold in the living share. |
| `ConflictNotes.LiveNotes` | internal/sync/engine.go:137-219 | In the living share the notes of an instance about an item grow by what its thread writes and by nothing else; none is ever removed. |
| `ConflictNotes.CrossingIsNoted` | internal/sync/engine.go:271-301 | After a crossing in the living share, however it goes on, the instance with the lower id holds one note more, saying its own and the other's value for exactly the differing title, status and priority (none if there are none), and the one with the higher id holds none more. |
| `Dealt.ActivityInEveryRun` | internal/sync/engine.go:321-361 | In every run of the courier: every activity message dealt with, acked ones included, is in the receiver's table; rows that were there are as they were; no other row is there. |
| `Dealt.ActivityRowInEveryRun` | internal/sync/engine.go:321-361 | And it is there as the first message dealt with about it has it, field by field, filed in the receiver's project, on its item exactly if that item was known by then. |
| `Dealt.ActivityTravels` | internal/sync/engine.go:321-361 | What is sent about an activity row and stored by a peer that has its item is the row again, its project apart. |
| `Dealt.ProjectInEveryRun` | internal/sync/engine.go:363-385 | In every run the project is, field by field, as the last project message dealt with has it, and the receiver's own next pass has nothing to send for it. |
| `RankFusion.RrfMerge` | internal/service/service.go:739-769 | The map-and-slice fusion returns each key of the inputs once, as its first row, ordered by the exact sum of 1/(60+rank) descending, ties by first appearance. |
| `RankFusion.FusionUnique` | internal/service/service.go:739-742 | That description determines the output. |
| `RankFusion.FusingOneList` | internal/service/service.go:743-769 | Fusing one list without duplicates returns it unchanged. |
| `RankFusion.ScoreBounds` | internal/service/service.go:739-769 | Of duplicate-free lists no longer than max, each vote is worth at least the bottom place and at most the top one. |
| `RankFusion.AgreementBeatsRank` | internal/service/service.go:739-742 | With duplicate-free lists of at most 60 rows every row found twice comes before every row found once. |
| `RankFusion.SixtyOneRowsBreakAgreement` | internal/service/service.go:739-742 | At 61 rows that fails: two concrete lists whose fusion puts a single-list row first. |
| `RankFusion.BetterEverywhereComesFirst` | internal/service/service.go:739-742 | A row ranked better than another in every list that holds the other comes before it. |
| `RateLimit.IPLimiter.Allow` | internal/ratelimit/ratelimit.go:49-66 | Admits as the bucket says and leaves the entry the bucket leaves; other entries are untouched. |
| `RateLimit.RefusalCostsNothing` | internal/ratelimit/ratelimit.go:49-66 | A refusal keeps the partial tokens: the next request is admitted exactly when the refill makes a whole one. |
| `RateLimit.IPLimiter.Sweep` | internal/ratelimit/ratelimit.go:37-47 | Drops exactly the entries idle for more than ten minutes. |
| `RateLimit.SweepKeepsBudget` | internal/ratelimit/ratelimit.go:37-47 | If a bucket refills within ten minutes, dropping an idle entry changes no later budget. |
| `RateLimit.AdmissionsPaid` | internal/ratelimit/ratelimit.go:49-66 | In every run the admissions of a stretch plus the remaining budget are covered by one burst and the refill since. |
| `RateLimit.WindowBound` | internal/ratelimit/ratelimit.go:15-18 | In every run and window, janitor included, an IP gets at most burst + rate * length admissions. |
| `RateLimit.JanitorHandsOutMore` | internal/ratelimit/ratelimit.go:37-47 | If a bucket does not refill within ten minutes there is a run that beats the bound. |
| `RateLimit.BoundIff` | internal/ratelimit/ratelimit.go:15-66 | The bound holds on all runs if and only if rate * 600 >= burst. |
| `Webhooks.AtMostOncePerLoss` | internal/service/webhooks.go:86-91 | Over every run a subscriber acknowledges an event at most once more than there were lost row updates. |
| `Webhooks.MostAcksDecide` | internal/service/webhooks.go:86-91 | That number is the exact maximum: a bound on the acknowledgements of every subscriber in every run with a pattern of losses holds if and only if it is not below it. |
| `Webhooks.AtMostOnceIff` | internal/service/webhooks.go:86-91 | At most one acknowledged POST per subscriber, on every run with a given pattern of lost updates, if and only if no update before the last is lost. |
| `Webhooks.RunKeepsConsistent` | internal/store/webhooks.sql.go:259-323 | So does every run between any two of its points; delivered and parked are final. |
| `Webhooks.DeliveredMeansAllAcked` | internal/service/webhooks.go:86-120 | A round marks the event delivered if and only if the lookup worked and every subscriber matching then has acknowledged. |
| `Webhooks.TicksAreRuns` | internal/service/webhooks.go:75-84 | However many events share the outbox and the batches, each one lives a run of its own rounds. |
| `Webhooks.TicksAreTimely` | internal/store/webhooks.sql.go:98-108 | And each of those rounds is held when the event is due. |
| `Webhooks.Outbox.Deliver` | internal/service/webhooks.go:86-135 | POSTs to exactly the matching subscribers not yet acknowledged and closes the event as specified; a lost update leaves the row. |
| `Webhooks.WaitsAddUp` | internal/service/webhooks.go:137-147 | Without lookup failures or lost updates the waits the row has been given so far add up to 2^attempts - 1 seconds, at most 127. |
| `Webhooks.NextAttemptAt` | internal/service/webhooks.go:137-147 | A recorded round that leaves the event pending sets its next attempt to the end of the round plus two to the power of the attempts before it, in seconds, and plus an hour from the twelfth on. |
| `Webhooks.BackoffIsKept` | internal/service/webhooks.go:137-147 | Over timely runs without losses round n starts at least 2^n - 1 seconds after the first ended: the eighth at least 127 seconds later. |
| `Webhooks.LastErrorIs` | internal/service/webhooks.go:103-125 | The error on record is that of the last POST that failed. |
| `Webhooks.FinishedIff` | internal/service/webhooks.go:92-135 | For every pattern of lost updates and failed lookups: whatever the subscribers do, the event is finished after these rounds if and only if some round posts and is recorded with at least seven recorded rounds before it. |
| `Webhooks.EightFailuresPark` | internal/service/webhooks.go:121-133 | No event sees more than eight recorded rounds with a failing POST, and the eighth parks it. Rounds whose lookup fails are not among them. |
| `Webhooks.EightFailuresAndLosses` | internal/service/webhooks.go:121-133 | Rounds with a failing POST, recorded or not, are at most eight plus the lost updates. |
| `Webhooks.LostFailuresGoOn` | internal/service/webhooks.go:121-133 | The losses do come on top: for every n there are n valid rounds, each held when due, with a failing POST, no attempt counted and the event still pending. |
| `Webhooks.Outbox.ProcessBatch` | internal/service/webhooks.go:75-84 | One tick of the worker leases due events and leaves exactly them after one round each, leased together and delivered at whatever later times. |
| `Webhooks.Outbox.Lease` | internal/store/webhooks.sql.go:98-108 | Takes due events only, at most limit, none that should yield to an earlier one left out, and moves exactly those a minute ahead. |
| `ProjectForest.ProjectDescendants` | internal/store/projects.sql.go:352-364 | On any table, cyclic ones included, the closure ends with exactly the slugs whose chain of parents passes the root. |
| `ProjectForest.ValidateProjectParent` | internal/service/hierarchy.go:15-42 | Returns not-found, invalid or fine as the tree demands, for slugs not created yet too. |
| `ProjectForest.VerdictIsExact` | internal/service/hierarchy.go:15-42 | On a forest the check accepts a change of parent if and only if the changed table is still a forest. |
| `ProjectForest.DoKeepsForest` | internal/api/projects.go:46-129 | Every create, re-parenting or purge keeps parents existing and the relation acyclic. |
| `ProjectForest.AlwaysAForest` | internal/service/hierarchy.go:15-42 | So does every run from the empty table. |
| `ProjectForest.PurgeTakesOneRow` | internal/service/projects.go:37-66 | A purge that succeeds removes one archived row and changes no other: the re-rooting foreign key never fires. |
| `ProjectForest.CreateLeaves` | internal/api/projects.go:46-81 | A create that succeeds adds one row with the parent and status asked for (active by default) and changes no other. |
| `ProjectForest.PatchLeaves` | internal/store/projects.sql.go:416-447 | A patch that succeeds changes its row alone: the parent left, cleared or set as asked, the status if one is given. |
| `ProjectForest.Projects.Create` | internal/api/projects.go:46-81 | The handler's create against the table: empty slug or name, unknown status, bad parent, a status the table refuses and a taken slug are refused in that order. |
| `ProjectForest.Projects.Patch` | internal/api/projects.go:96-129 | The tri-state parent (omitted leaves, empty clears, a slug re-parents), after the status check and with the refusals in the handler's order. |
| `ProjectForest.Projects.Purge` | internal/service/projects.go:48-94 | Guards in order; on failure rows and blobs stay, on success exactly the project's reachable blobs go. |
| `TreeOrder.Index` | web/src/lib.ts:63-74 | The first loop finds every project's children and the roots, both in list order. |
| `TreeOrder.Walker.WalkFrom` | web/src/lib.ts:77-82 | The recursive walk over mutable output and visited set appends exactly what Walk defines, cycles included. |
| `TreeOrder.ProjectTreeOrder` | web/src/lib.ts:60-87 | The whole function terminates on any list and returns Flatten of it. |
| `TreeOrder.FlattenPermutes` | web/src/lib.ts:55-59 | For unique slugs, orphans and cycles included, the output is a permutation of the input. |
| `TreeOrder.FlattenIsDepthFirst` | web/src/lib.ts:55-59 | Every output has that shape, and projects without a listed parent are top rows. |
| `TreeOrder.ForestWrittenOut` | web/src/lib.ts:60-87 | On a forest the output is the roots' subtrees one after the other, each one block with children in list order, and the last pass adds nothing. |
| `TreeOrder.KidsInOrder` | web/src/lib.ts:63-74 | The children those blocks follow are in list order. |
| `TreeOrder.ForestTops` | web/src/lib.ts:55-59 | On a forest the top rows are exactly the projects without a listed parent. |
| `Embedder.TruncBytes` | internal/service/embedder.go:212-223 | The cut loop returns the text cut at the last rune boundary not beyond the cap. |
| `Embedder.TruncKeepsWholeRunes` | internal/service/embedder.go:212-213 | On encoded text the result is a whole number of code points, and as many as fit. |
| `Embedder.TextOfRow` | internal/service/embedder.go:202-223 | The text sent is title, blank line and body within the cap, and beyond it the longest beginning of that which ends between two code points. |
| `Embedder.ListWaiting` | internal/store/items_semantic.sql.go:44-50 | Lists waiting rows newest first, fifty at most, all of them if fewer. |
| `Embedder.Backfill.SaveVec` | internal/service/embedder.go:137-145 | Stores a vector of the right size and parks the row otherwise, only where no vector is present; nothing on a database failure. |
| `Embedder.Backfill.EmbedBatch` | internal/service/embedder.go:85-111 | The same for the batch call with its fallback: a refused batch condemns nobody. |
| `Embedder.Backfill.DrainBacklog` | internal/service/embedder.go:63-83 | Terminates whatever the API does; reports done if and only if nothing needed a retry, and then the backlog is empty; all changes are on record. |
| `Embedder.ProgressJoins` | internal/service/embedder.go:63-83 | Interrupted drains add up: what was settled stays, with its reason. |
| `Embedder.EmptyBacklogIsPerRow` | internal/service/embedder.go:85-145 | However many interrupted drains it took, once the backlog is empty each row is parked exactly if its text is refused alone or gets a wrong-size vector, and holds its own vector otherwise; all other rows are unchanged. |
| `Embedder.SteadyDrain` | internal/service/embedder.go:63-83 | With no transient failure one drain ends with an empty backlog and that per-row result. |
| `Embedder.OneAnswerParksIff` | internal/embed/embed.go:107-116 | When every call gets one status code, whatever the content, a drain that ran its course parks every waiting row if and only if the code is a 4xx other than 429, a revoked key's 401 included; otherwise it changes nothing. |
| `Embedder.DrainUnderOneAnswer` | internal/service/embedder.go:63-83 | The drain method run against such an API ends exactly so. |

## Left out

- Encryption, signatures, tokens, TLS, HTTP routing, JSON and base64: a received message is either undecryptable or an opened envelope, and its payload either decodes or is malformed; uuid parsing is part of that.
- The content hash is taken to be injective on payloads; the JSON normalisation PostgreSQL applies to jsonb columns, and the difference between an absent and an empty tag list, are not modelled.
- The clock, the network, the API's answers, database failures and receiver deaths are inputs of the operations, chosen arbitrarily.
- Atomicity: writing a message file and bumping the counter is one step of the mailbox except in `Mailbox.CrashHarmlessIff`; the row and hash writes of an apply are one step everywhere except in `EchoBound`, whose crash events split them.
- Mailbox.Store.Receive: does not model corrupt or concurrently removed message files, which the source drops or skips.
- Mailbox.Store.Ack: does not model a file-system error in the middle of the loop.
- Mailbox.Store.Create: takes the fresh mailbox name as an argument instead of drawing it at random, and leaves out the validity check on names that Send and the others make.
- Convergence.CrossingConverges: assumes in-order, once-only delivery. Courier.SmoothRunIsQueue says when the mailbox delivers that way; without it the property fails, as OneWay.OneLostAckParts shows.
- SyncEngine.Engine.ApplyProject: the project row has no conflict detection and no convergence property to state.
- SyncEngine.Engine.LogConflict: the note is a list of displaced and kept values in a log of its own, not the English sentence in an activity row; that this row travels to the peer later is not modelled.
- SyncEngine.Engine.PushOutbound: the order in which the database lists the items, which the query leaves open, is an argument; rows edited while a pass runs are outside the sequential model.
- SyncEngine.Engine.UpsertSyncedItem: does not model the source column and the reset of the embedding, which are neither sent nor compared.
- Sharing.ShareConverges: batches are taken in without interruption, for the reason given at Convergence.CrossingConverges; items stay in the shared project.
- The updated-at column and the search columns of an item, which are neither sent nor compared.
- RankFusion.RrfMerge: exact rational scores; rounding of binary fractions is left out, and so is capLen, a plain prefix.
- RateLimit.IPLimiter.Allow: exact reals for times and tokens; the lock and the choice of client address are left out.
- Webhooks.Outbox.Deliver: one worker; several concurrent workers, signing and the HTTP POST itself are left out, as are listing failed events and purging old ones.
- ProjectForest.Projects.Create: the other columns of a project, which are stored as given, are left out, here and in Patch.
- ProjectForest.ValidateProjectParent: the parent is given trimmed, and two requests racing each other are outside the sequential model.
- ProjectForest.Projects.Purge: the tallies it returns, the cascade into items and activity, and the cache are left out.
- TreeOrder.ProjectTreeOrder: projects carry only slug and parent; the drawer's own descendant loop is the closure of `ProjectForest` again and is not repeated.
- Embedder.Backfill.DrainBacklog: the item drain only; the activity drain has the same loop over another table. Edits made while a batch is at the API are outside the sequential model.
- Full-text, trigram and vector search, Redis, MinIO, usage sums, version comparison, the orient cache, React components and the command line would add only easy members or have no property to state.
