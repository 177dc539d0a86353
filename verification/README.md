# Voldepass: the sync protocol and its neighbours, verified

Voldepass is a password manager whose devices work offline and meet at a server. This project models
three parts of it in Dafny and proves what they promise.

* **The sync protocol.** Each device has a store of records (dirty ones were changed locally), a cursor
  and a list of push batches that the server has not acknowledged. A Sync replays those batches, then
  pulls and merges the changes since the cursor and pushes what is dirty in chunks, in turn, until no
  conflict is left or a limit is reached. The server gives every write the next number of one counter,
  accepts a write only if it is based on the version it replaces, and remembers its answers under
  idempotency keys for a day.
* **Refresh tokens and login attempts.** Rotation with detection of reuse, and the gate that limits
  failed logins.
* **The password generator**, with its Fisher-Yates shuffle over an array.

How it is built:

* The code that changes things in place is modelled by classes with the same fields and loops: `Store`
  (with the slice of pending batches as an array and a length), `Syncer`, `VaultManager`,
  `RecordRepository`, `IdempotencyStore`, `Service`, `RefreshTokenStore`, `RefreshTokenService`,
  `LoginAttemptTracker`, `AuthService`. Each method is proved equal to a function on values.
* The functions make up two state machines. `Device.dfy` is one device: every wait for the network is a
  state, so that others can act in between and any call can fail; the class `Syncer` is proved to make
  steps of this machine only, with any transport. `Protocol.dfy` is the system: any number of devices of
  any number of owners, the server, every message ever sent, and replies that are lost, late or repeated.
  At the server only the methods of the two stores are atomic: a push is a lookup, one upsert for each
  record and a save, and any number of handlers, also of one request, take turns (`SyncService.dfy`).
* The theorems about runs are in `Tombstones.dfy`, `LocalEdits.dfy`, `Convergence.dfy`, `Stuck.dfy`,
  `Lone.dfy`, `MissedWrites.dfy`, `Answers.dfy`, `Batches.dfy`, `LostReply.dfy`, `Ownership.dfy`,
  `Clocks.dfy`, `Iterations.dfy` and `IncrementalPull.dfy`; `Scenarios.dfy` has runs into the states that the exact conditions of these
  exclude. `Merge.dfy` gives the merge of a pull without an order, and proves the loop equal to it. `Repository.dfy` keeps a ghost log of all writes, indexed by version.

What comes from outside: ids, owners, keys, tokens and login names are numbers, since they are only ever
compared; a generated id or key is one that was never generated before; clock readings never go back and
are parameters or come from `Environment` and `Clock`; payloads are opaque values, so that encryption and
JSON are identities; hashing of tokens is injective; the in-memory repositories do each method under one
lock, so that each is one step.

Where the code does not do what the documentation says, the model follows the code:

* README.md:86-88 and internal/client/service/syncer.go:134 promise that the losing side of a conflict is always kept as a copy.
  It is not when the local side wins by time; `Merge.IncomingSurvivesExactlyWhen` says exactly when.
* internal/server/storage/inmem/login_attempt.go:15 speaks of a sliding window and of maxAttempts within the window. The window is
  fixed from its first failure, and the exact bound over any interval of its length is
  2 * maxAttempts - 1 (`LoginAttempts.FailuresAreBounded`, `LoginAttempts.BoundIsReached`); maxAttempts is
  kept only for one attempt or no window (`LoginAttempts.LimitIsKeptExactlyWhen`).
* internal/client/service/syncer.go:227-229 and internal/server/service/sync.go:42 promise that a repeated
  request is answered as the first was. It is if and only if every handler still at work under the key has
  done all its upserts and come to the same answer (`Answers.RepeatsAreAnsweredAlikeExactlyWhen`). A retry
  of the HTTP client can put a second handler to work, and `SyncService.OverlapReplacesAnswer` is an order
  that fails. Nothing is applied twice even so (`SyncService.AtMostOnce`).
* The same promise helps a record that is edited before the replay only as long as the server does not
  remember another content as applied: `LostReply.EditsSurviveReplayExactlyWhen`.
* internal/client/service/syncer.go:206-210 moves the cursor to the versions a push was given, which can
  pass over what another device wrote meanwhile: `MissedWrites.WriteIsStillListedAfterPushExactlyWhen` says when,
  and `Scenarios.StaleCopyIsReachable` that it happens.
* README.md:94-96 promises that records still dirty come back for manual resolution, and that the loop
  converges otherwise. An iteration ends clean exactly when no record was stuck at its pull
  (`Lone.ConvergesExactlyWhen`), and a foreign write during a push is enough to make one stuck
  (`Stuck.BecomesStuckExactlyWhen`, `Scenarios.StuckWithoutFailureIsReachable`). Editing a stuck record
  frees it only when the device has the server's version (`Stuck.EditFreesExactlyWhen`); otherwise it stays
  stuck through any number of Syncs and edits (`Lone.StuckStaysStuck`, `Scenarios.StuckIsReachable`).

`dafny verify dfyconfig.toml` checks everything.

## Model

| member | source | states |
|---|---|---|
| `Tombstones.DeletedStaysDeleted` | internal/client/service/syncer.go:131-178 | In every run of any number of devices and the server (edits during a Sync, imports of earlier listings, lost, late and repeated messages, several handlers of one request at once, REST creates and deletes): once the server holds a tombstone for an id, it holds one in every later state. |
| `Tombstones.StepKeepsInv` | internal/client/service/syncer.go:131-178 | The reason: a record that is not deleted never carries a version, or a base version, that was given to a tombstone, be it in a store, in a chunk, in a message, in the idempotency cache or in an export; every step keeps this. |
| `Tombstones.ServeKeepsTomb` | internal/server/service/sync.go:54-75 | No step of the server brings a tombstone back: an accepted upsert over one is based on it, and what is based on it deletes too. |
| `Tombstones.NothingIsAppliedTwice` | internal/server/service/sync.go:43-88 | In every run of the system, no record that a device sent is applied twice: the second of any two upserts of it, in whichever messages and handlers, is a conflict and changes no record. |
| `LocalEdits.NoLocalEditIsLost` | internal/client/service/syncer.go:112-251 | In every run in which edits neither overlap a Sync nor touch a batch that waits for its replay: what an edit asked for (told by the edit itself: kind, payload, deleted or not) and no later edit replaced is dirty on that device, under the id the record has by then, or the server has, since that edit, written exactly that content for that owner under an id the record has had since. Calls may fail anywhere; replies may be lost, late, or come from the cache; handlers of one request may overlap. |
| `LocalEdits.StepKeepsInv` | internal/client/service/syncer.go:183-251 | What every such step keeps: each message under the key of a pending batch carries what the records of the batch still are; each cached answer, and what each handler has so far, stands for writes made since the key was generated; no two devices have a batch under the same key. |
| `Convergence.QuietSyncsConverge` | internal/client/service/syncer.go:75-100 | In every run without failed calls in which nobody else writes the owner's records while one of the owner's devices syncs, and requests are processed any number of times, early or late, but not twice at once nor after their answer was forgotten while a device waits: each Sync (any chunk size, maxIterations >= 1) is in its first iteration and without a conflict at every moment, and at its end the device holds exactly the server's records of its owner, all clean, with nothing pending. |
| `Convergence.PullCatchesUp` | internal/client/service/syncer.go:105-127 | A pull of the changes since the cursor brings the device to the server's version of every record of its owner; what stays dirty is based on the version the server has, so that a push of it is accepted. |
| `Convergence.ApplyIsProgress` | internal/server/service/sync.go:54-75 | An upsert for a message that a device waits for is applied, and the device stays up to date with all but the records of its chunk that have been applied so far. |
| `MissedWrites.PushApplies` | internal/server/service/sync.go:54-75 | A push of distinct records that are new to the server or based on its version is applied in full, each answered with what the server then has; nothing else changes. |
| `MissedWrites.WriteIsStillListedExactlyWhen` | internal/client/service/syncer.go:206-225 | The same for one chunk: after the rest of it the write is still listed if and only if the server refuses every record of that rest. |
| `MissedWrites.WriteIsStillListedAfterPushExactlyWhen` | internal/client/service/syncer.go:182-225 | A record of the owner is created, changed or deleted by somebody else after the device's pull and while its push is under way, in whichever chunk, and whether or not the push carries that record too: when the rest of that chunk and all later chunks are answered, the next pull still lists it if and only if the server refuses every record of all of these, which is decided when the foreign write is made. If the push does not carry the record any more, or the server refuses it, the device's copy and the server's record stay as they were. |
| `MissedWrites.EachIsDecidedBeforehand` | internal/server/storage/inmem/record.go:31-34 | In a push of distinct records each is applied if and only if it is new to the server or based on its version before the push. |
| `MissedWrites.ForeignWriteDuringSyncIsMissed` | internal/client/service/syncer.go:206-225 | In particular a record created meanwhile is missed by every device whose push is accepted. |
| `Scenarios.StaleCopyIsReachable` | internal/client/service/syncer.go:206-225 | A run of the system without a failed call leads there: a device at rest, with nothing dirty or pending, holds a record that its owner deleted, and no pull lists the deletion. |
| `Lone.ConvergesExactlyWhen` | internal/client/service/syncer.go:75-100 | In the system, from any state that any run reached, with calls failed and edits stuck in whatever way before: a Sync that starts there with nothing pending, or one that has come to the pull of any of its iterations. If from then on no call fails and nobody else has the owner's records written (other devices may edit, pull and send; other owners may write; requests may be processed again; answers may be repeated or late; handlers work step by step), then after this iteration nothing is dirty, and it had no conflict, if and only if no record was stuck when it began, that is, dirty, not based on the server's version, and with that version passed by the cursor; if the clean records were the server's, the device then holds exactly the server's records. |
| `Lone.StuckStaysStuck` | internal/client/service/vault_manager.go:101-126 | In the system, through any number of such Syncs and edits, a record stays stuck whose own version is not the server's. |
| `Lone.RunSimulates` | internal/server/service/sync.go:43-88 | Every such run of the system is, for the device, a run of the device whose pushes are answered record by record while others write records of their own. |
| `Stuck.ConvergesExactlyWhen` | internal/client/service/syncer.go:75-100 | The same of a device and the server's records, from any store with nothing pending, reached or not. |
| `Stuck.StuckStaysStuck` | internal/client/service/vault_manager.go:101-126 | The same of a device and the server's records. |
| `Stuck.BecomesStuckExactlyWhen` | internal/client/service/syncer.go:182-225 | Somebody else writes a record after the device's pull and while its push is under way: when the rest of the push is answered, the record is stuck if and only if the device has by then a change of it that the server refuses, and the server accepts any other record of that rest. |
| `Stuck.EditFreesExactlyWhen` | internal/client/service/vault_manager.go:101-185 | An edit frees a stuck record if and only if it finds the server's version: an update or a deletion, when that is the version the device has; an import, when that is the version in the last imported record of that id. No other edit does. |
| `Stuck.PullKeepsStuck` | internal/client/service/syncer.go:105-127 | A pull leaves exactly the same records stuck. |
| `Stuck.PushKeepsStuck` | internal/server/service/sync.go:54-75 | The server refuses a stuck record, and the reply leaves it stuck. |
| `Scenarios.StuckIsReachable` | internal/client/service/syncer.go:152-157 | A run of the system leads there: a local win in a later chunk, a failed call for an earlier one, another edit, and the record is stuck for good. |
| `Scenarios.StuckWithoutFailureIsReachable` | internal/client/service/syncer.go:182-225 | Another run leads there in which no call fails: a record was deleted elsewhere between the pull and the push, its own deletion was refused, and another record of the push was accepted. |
| `Scenarios.QuietPushIsReachable` | internal/client/service/syncer.go:75-100 | There is a run as QuietSyncsConverge supposes of which the last step ends a Sync that has pushed. |
| `LostReply.LostReplyEqualsDelivered` | internal/client/service/syncer.go:227-251 | A push was answered, its reply was lost, and every other handler at work on its key had come to the same answer: whatever the server does within the key's life, the replay asks the same, is answered the same, changes nothing at the server and leaves the device's records, cursor and pending list as the lost reply would have. |
| `LostReply.OverlapLosesAnswer` | internal/server/service/sync.go:43-88 | With an unfinished handler at work it can fail: the replay is answered with conflicts only, and the records stay dirty although the server has written them. |
| `LostReply.EditsSurviveReplayExactlyWhen` | internal/client/service/syncer.go:230-249 | In every run, with any edits of any records of a batch since it was first sent, and after any number of failed replays: for each record of the batch, what the store held when the replay was sent is there after its reply if and only if the server does not remember, when it looks the replay up, that it applied something else for that record; if it does, the record becomes what was applied, clean. |
| `LostReply.ReplayKeepsExactlyWhen` | internal/client/service/syncer.go:230-249 | The same for any store with one batch pending, whose ids are distinct and in the store, and any server. |
| `Batches.AnswersAreAboutTheBatch` | internal/client/service/syncer.go:183-204 | In every run, with edits at any time, the ids of a pending batch are distinct and in the store, and what the server remembers under its key answers these ids one by one. |
| `LostReply.EditSurvivesReplayExactlyWhen` | internal/client/service/syncer.go:183-249 | The same from one failed call, of a push or of a replay, through any number of edits of any records, to the reply to the next replay. |
| `LostReply.EditBeforeReplayIsLost` | internal/client/service/syncer.go:230-249 | So whatever edits, deletions among them, left of a record that the server has applied with another content is undone by a replay within the key's life: the record becomes what was applied, clean. |
| `LostReply.ContentSurvivesExactlyWhen` | internal/client/service/syncer.go:211-225 | A record keeps its content through a reply if and only if the reply has no applied result about it, or one with that content. |
| `Ownership.IdsKeepTheirOwner` | internal/server/storage/inmem/record.go:27-41 | Though an upsert replaces the owner unseen: in every state that any run of the system reaches, each record of the server and of every device has the owner who generated its id. |
| `Ownership.RegisteredForGood` | internal/server/storage/inmem/record.go:27-41 | And an id that has an owner keeps it in every run that follows. |
| `Ownership.ServeRespectsOwners` | internal/server/storage/inmem/record.go:27-41 | No step of the server in the system writes an id for another owner than it has. |
| `Ownership.CursorsStayBehind` | internal/client/service/syncer.go:105-127 | In every run no cursor is ahead of the server's counter. |
| `IncrementalPull.PullOnlyDeviceMirrorsServer` | internal/client/service/syncer.go:105-127 | A device that starts empty and only pulls holds, after each pull of the changes alone, exactly the server's current records of its owner, whatever was written in between. |
| `Merge.MergeAllIsMerge` | internal/client/service/syncer.go:105-159 | The loop over the pulled records computes the merge that is defined id by id, without an order. |
| `Merge.MergeOrderIrrelevant` | internal/client/service/syncer.go:105-127 | Every ordering of the pulled records gives the same store, if the copies keep their ids. |
| `Merge.MergeOrderRenamesCopies` | internal/client/service/syncer.go:105-178 | With ids drawn as the records come, the stores of two orderings differ by a one-to-one renaming of the conflict copies, and in the clock readings of copied server records, only. |
| `Merge.DirtySurvivesMerge` | internal/client/service/syncer.go:129-178 | Each dirty record lives on in a dirty record of the same content, and no two of them in the same one. |
| `Merge.ConflictOutcome` | internal/client/service/syncer.go:141-178 | How each conflict ends: the winning side keeps the id, clean if it is the server's, else dirty and based on the server's version; a kept loser is a new dirty record with base version 0. |
| `Merge.DeleteWins` | internal/client/service/syncer.go:131-134 | A delete on either side of a conflict ends as a tombstone, whatever the clocks say and whatever else is merged. |
| `Merge.IncomingSurvivesExactlyWhen` | internal/client/service/syncer.go:136-157 | The content of a pulled record is kept if and only if it is not the case that both sides agree on deletion, the local change is not older, and the contents differ. |
| `Merge.ServerUpdateCanBeLost` | internal/client/service/syncer.go:155-157 | A pulled update that loses by time and is kept nowhere. |
| `Device.PendingDiscipline` | internal/client/service/syncer.go:75-100 | From an empty store, with calls failing anywhere: never more than one pending batch, its records are all in the store, and a Sync that ends without an error leaves none. |
| `Device.PushCoversDirty` | internal/client/service/syncer.go:180-204 | An error-free push: the requests, in the order they were answered, carry the dirty list, every record once, and the ids put on the pending list, in the order they were, are those of the dirty list, each once. |
| `Chunks.ChunksFlatten` | internal/client/service/syncer.go:264-278 | The chunks concatenate to the list, in order. |
| `Chunks.ChunkLengths` | internal/client/service/syncer.go:264-278 | Every chunk has between 1 and size elements; all but the last are full. |
| `Chunks.ChunkCount` | internal/client/service/syncer.go:264-278 | There are ceil(n / size) chunks. |
| `Chunks.ChunkRecords` | internal/client/service/syncer.go:264-278 | The slicing loop returns these chunks, for every size; sizes below 1 mean 100. They concatenate to the list, none is empty or longer than the size, and all but the last are full. |
| `Syncer.Syncer.Sync` | internal/client/service/syncer.go:60-100 | A whole Sync, against any transport, is a run of the device machine from rest to rest whose calls are those made, in order, with a newly generated key for each new batch; it fails exactly when its last step is a failed call, and only then the time of the last Sync stays. Told by the calls alone: it never pulls more often than the limit; it pulls again only when a record was refused since the pull before; when it ends without an error, it has pulled as often as it may, or nothing was refused since its last pull, and if it pushed nothing since then nothing is dirty. It returns every dirty record once if it stopped at the limit, otherwise nothing. |
| `Syncer.Syncer.RunSync` | internal/client/service/syncer.go:75-100 | The same, without the time stamp. |
| `Iterations.SyncIsAsTold` | internal/client/service/syncer.go:75-100 | The same of every Sync of the device machine, also with edits during it. |
| `Iterations.PullsAgainExactlyWhen` | internal/client/service/syncer.go:80-98 | After the last chunk of an iteration with a conflict the next step is the next pull if and only if this was not the last iteration allowed. |
| `Syncer.Syncer.PullAndMerge` | internal/client/service/syncer.go:105-127 | Asks with the cursor; on a reply the records become its merge, with fresh and distinct ids for the copies, and the cursor the largest version; on a failure nothing changes. |
| `Syncer.Syncer.ResolveConflict` | internal/client/service/syncer.go:141-159 | Resolves one conflict as defined, with a fresh id for the copy. |
| `Syncer.Syncer.SaveConflictCopy` | internal/client/service/syncer.go:164-169 | The local version under a fresh id and with base version 0. |
| `Syncer.Syncer.SaveConflictCopyFromDTO` | internal/client/service/syncer.go:174-178 | The server's version under a fresh id, dirty as of now, with base version 0. |
| `Syncer.Syncer.PushAll` | internal/client/service/syncer.go:182-204 | Sends the chunks in turn, each put on the pending list under a fresh key before it is sent; stops at the first failed call with the batch still pending; reports whether any result was a conflict. |
| `Syncer.Syncer.ApplyPushResults` | internal/client/service/syncer.go:211-225 | Applied results become clean records, the cursor moves to their largest version, and a conflict is reported exactly when there is one. |
| `Syncer.Syncer.ReplayPending` | internal/client/service/syncer.go:230-251 | Replays every batch that was pending at the start once and in order, under its own key and with the records as they are now; drops a batch whose records are gone; stops at the first failed call. |
| `Syncer.Syncer.RemainingConflicts` | internal/client/service/syncer.go:255-262 | Every dirty record, once. |
| `Syncer.Syncer.RecordIDs` | internal/client/service/syncer.go:281-287 | The ids in order. |
| `Store.Store.ClearPendingPush` | internal/client/storage/state.go:222-233 | Compaction within the backing array leaves the batches with another key, in order, and writes no other memory. |
| `Device.WithoutAround` | internal/client/storage/state.go:222-233 | What it leaves: around each batch of the list, that batch is left exactly when its key is another one. |
| `Store.Store.AddPendingPush` | internal/client/storage/state.go:215-220 | Appends; the array is the old one or a fresh one. |
| `Store.Store.PendingPushes` | internal/client/storage/state.go:235-242 | A fresh copy of the list. |
| `Store.Store.TakeSnapshot` | internal/client/storage/state.go:86-114 | Every field of the store, with the list of pending batches as a fresh copy. |
| `Store.Store.ListDirty` | internal/client/storage/state.go:174-185 | Every dirty record, once, and nothing else. |
| `Store.Store.ListRecords` | internal/client/storage/state.go:163-172 | Every record, once. |
| `Store.Store.PutRecord` | internal/client/storage/state.go:148-153 | Replaces the record at its id only. |
| `Store.Store.GetRecord` | internal/client/storage/state.go:140-146 | The record at an id, if there is one. |
| `VaultManager.VaultManager.Create` | internal/client/service/vault_manager.go:39-71 | A fresh record with this kind and payload, not deleted, with no version, dirty as of now; a payload over 7 MiB is refused and changes nothing. |
| `VaultManager.VaultManager.Update` | internal/client/service/vault_manager.go:75-110 | The new payload and else what the record was, dirty as of now and based on the known version; unknown ids and large payloads are refused, in this order, and change nothing. |
| `VaultManager.VaultManager.Delete` | internal/client/service/vault_manager.go:112-126 | The record as it was but deleted, dirty as of now and based on the known version; an unknown id is refused. |
| `VaultManager.VaultManager.Import` | internal/client/service/vault_manager.go:176-185 | Every record dirty and based on its own version, all with one time; the last one counts for a repeated id. |
| `VaultManager.VaultManager.List` | internal/client/service/vault_manager.go:193-203 | Every record that is not deleted, once. |
| `Repository.LinearHistory` | internal/server/storage/inmem/record.go:27-41 | In every run each version from 1 to the counter belongs to one write, which has the content that its operation asked for and the clock reading of that operation; an accepted upsert of a known id carried the version of the write directly before it on that id, and the repository holds the last write of each id. |
| `Clocks.LaterSideWins` | internal/client/service/syncer.go:141-159 | In every run of the system, with whatever edits, merges, failures and repetitions before: where a pulled change meets a change of the user and both or neither are deletions, the pulled record is the server's write of that version as it was written, and it replaces the user's, which is kept under a new id, if and only if the server's clock at that write was later than the device's at the user's edit; otherwise the user's stays, based on that version. |
| `Clocks.WritesAreStamped` | internal/server/storage/inmem/record.go:36-40 | In every run of the system each write bears the clock reading of the step of the server that made it. |
| `Clocks.DirtyTimesAreEditTimes` | internal/client/service/vault_manager.go:60-126 | In every run a dirty record bears the time of the last edit of it, or of the record that it is a conflict copy of, or, for a copy of a server record, of its making. |
| `Repository.RecordRepository.UpsertRecord` | internal/server/storage/inmem/record.go:27-41 | Compare-and-swap on the version: refused with the current record and no change exactly when the id is known under another version; else written with all that was sent, under the next version and with the time of the call. |
| `Repository.RecordRepository.DeleteRecord` | internal/server/storage/inmem/record.go:67-81 | Marks the owner's record as deleted under the next version; anything else is not found and changes nothing. |
| `Repository.RecordRepository.ListSince` | internal/server/storage/inmem/record.go:43-54 | The owner's records with a version past the given one, each once, no others. |
| `Repository.RecordRepository.Get` | internal/server/storage/inmem/record.go:56-65 | The record if it is the owner's. |
| `SyncService.AtMostOnce` | internal/server/service/sync.go:43-88 | Of any two upserts of one record in a run of the server, be they of one handler or of two, one after the other or interleaved, with the key known or forgotten, the second is a conflict and changes no record. |
| `Answers.RepeatsAreAnsweredAlikeExactlyWhen` | internal/server/service/sync.go:43-88 | And only then: repeats of a request are answered alike in all runs within the life of the answer if and only if every handler at work under the key has done all its upserts and come to the remembered results. (An unfinished one can always be made to save another answer.) |
| `Answers.AnswerIsSafeExactlyWhen` | internal/server/storage/inmem/idempotency.go:41-50 | The same for what is remembered: the results under a key stay the same in all runs within their life if and only if that holds of the handlers. |
| `Answers.RepeatIsAnsweredFromCache` | internal/server/service/sync.go:44-52 | If every handler at work under its key has come to the same answer, a remembered answer is what every request under the key gets until it expires, after any run of the server, and none changes anything. |
| `Answers.AnsweredForADay` | internal/server/service/sync.go:13-14 | The answer that a handler saves is given for 24 hours, if every other handler at work under the key has come to the same one. |
| `Answers.AnsweredAtLookUpExactlyWhen` | internal/server/storage/inmem/idempotency.go:29-39 | A request is answered at its lookup if and only if an answer under its key is remembered and its expiry is not past; else a handler goes to work on it and the expired answer is forgotten. |
| `Answers.CleaningForgets` | internal/server/storage/inmem/idempotency.go:52-63 | A cleaning of the server forgets exactly the answers of which the expiry is past, and changes nothing else. |
| `SyncService.EntrySurvives` | internal/server/storage/inmem/idempotency.go:29-63 | No run of the server, cleaning included, drops or changes an entry before its expiry if no handler under its key is at work. |
| `SyncService.EntryIsSafeExactlyWhen` | internal/server/storage/inmem/idempotency.go:41-50 | And only then: the entry itself, with its expiry time, is safe in all runs within its life if and only if no handler under its key is at work. |
| `SyncService.OverlapReplacesAnswer` | internal/server/service/sync.go:44-85 | The interleaving that fails: two handlers of one request have missed the cache; after both ran, the remembered answer is conflicts only, whatever the first applied. |
| `SyncService.StepsMakeThePush` | internal/server/service/sync.go:43-88 | A lookup, the upserts and the save of one handler with nothing in between, or a lookup that is answered from the cache, lead to the state of the server that the service computes, and the last of these steps replies with the results that the service returns. |
| `SyncService.PushAnswers` | internal/server/service/sync.go:54-75 | Each result answers its own record; an applied one is a write of this push, with the content that was sent; nothing logged before changes. |
| `SyncService.PushFrame` | internal/server/service/sync.go:54-75 | Records outside the request do not change. |
| `SyncService.Service.Push` | internal/server/service/sync.go:43-88 | The handler, running alone: a remembered answer that lives is returned as it is, and nothing changes; otherwise each result answers its own record, an applied one by a write that this call appended, with the content sent, and these very results are remembered for 24 hours. |
| `SyncService.Service.Pull` | internal/server/service/sync.go:28-39 | The owner's changed records as DTOs, each once. |
| `Idempotency.IdempotencyStore.Get` | internal/server/storage/inmem/idempotency.go:29-39 | The answer while it lives, its expiry time included; a miss drops the entry. |
| `Idempotency.IdempotencyStore.Save` | internal/server/storage/inmem/idempotency.go:41-50 | Remembers the answer until now + ttl. |
| `Idempotency.IdempotencyStore.DeleteExpired` | internal/server/storage/inmem/idempotency.go:52-63 | Keeps exactly the entries that are not past their expiry. |
| `RefreshTokens.TokensAreConserved` | internal/server/auth/refresh.go:32-83 | In every run a user's live tokens are as many as the account says: one more on a successful issue, none on reuse of a revoked token or on revocation, the same on every other rotation; other users do not count. |
| `RefreshTokens.StepBalance` | internal/server/auth/refresh.go:32-83 | The same for one operation. |
| `RefreshTokens.RotatesExactlyWhen` | internal/server/auth/refresh.go:49-78 | The life of a token over a whole run: its rotation succeeds if and only if its expiry is not past, the random source yields, and nothing since its issue rotated it, revoked its user or was a reuse of a revoked token of its user. |
| `RefreshTokens.RotatesAtMostOnce` | internal/server/auth/refresh.go:47-78 | No token is rotated successfully twice in a run. |
| `RefreshTokens.ReuseEndsTheFamily` | internal/server/auth/refresh.go:57-61 | After a revoked token was used, no token its user had by then ever rotates again. |
| `RefreshTokens.RefreshTokenService.Issue` | internal/server/auth/refresh.go:33-45 | Saves the hash of a new token; nothing when the random source fails. |
| `RefreshTokens.RefreshTokenService.Rotate` | internal/server/auth/refresh.go:49-78 | An unknown token is not found; a revoked or expired one is unauthorized, a revoked one also has all tokens of its user revoked; without randomness nothing changes; otherwise the old token is revoked and a new one of the same user stored with the new expiry. |
| `RefreshTokens.RefreshTokenService.Revoke` | internal/server/auth/refresh.go:80-83 | Revokes all tokens of the user and no others. |
| `RefreshTokens.RefreshTokenStore.Save` | internal/server/storage/inmem/refresh_token.go:30-36 | A live entry under the hash. |
| `RefreshTokens.RefreshTokenStore.Get` | internal/server/storage/inmem/refresh_token.go:38-47 | The entry, if there is one. |
| `RefreshTokens.RefreshTokenStore.Rotate` | internal/server/storage/inmem/refresh_token.go:49-62 | The old entry revoked, the new one live; an unknown hash changes nothing. |
| `RefreshTokens.RefreshTokenStore.RevokeAll` | internal/server/storage/inmem/refresh_token.go:64-75 | The loop revokes the user's entries and no others. |
| `LoginAttempts.FailuresAreBounded` | internal/server/storage/inmem/login_attempt.go:32-54 | In any stretch of logins without a success on the account, every closed interval of the window's length holds at most 2 * maxAttempts - 1 logins that passed the gate and failed. |
| `LoginAttempts.BoundIsReached` | internal/server/storage/inmem/login_attempt.go:43-54 | For every maxAttempts >= 1 and every window >= 1 there is a stretch that reaches this bound. |
| `LoginAttempts.LimitIsKeptExactlyWhen` | internal/server/storage/inmem/login_attempt.go:32-54 | What the limit suggests, at most maxAttempts such logins in every closed interval of the window's length, holds if and only if maxAttempts is 1 or the window is 0. |
| `LoginAttempts.IsLimitedExactlyWhen` | internal/server/service/auth.go:103-129 | In any run from the start, with successes and other accounts in between: a login is turned away if and only if the account has seen maxAttempts refusals or more, since its last success, in a window that is still open when the gate reads the clock; any other login succeeds exactly when its credentials pass. |
| `LoginAttempts.OthersMakeNoDifference` | internal/server/storage/inmem/login_attempt.go:25-62 | How a login ends does not depend on the logins on other accounts before it. |
| `LoginAttempts.CountStaysBounded` | internal/server/storage/inmem/login_attempt.go:32-62 | The stored count is between one and maxAttempts, in any run. |
| `LoginAttempts.AuthService.LogIn` | internal/server/service/auth.go:103-129 | A login passes the gate or is turned away with nothing changed; then wrong credentials are counted in the open window or open a new one, and right ones forget the account's entry; the readings of its clock do not go back. |
| `LoginAttempts.LoginAttemptTracker.Allowed` | internal/server/storage/inmem/login_attempt.go:32-41 | Open when there is no entry, its window is over, or its count is below the limit. |
| `LoginAttempts.LoginAttemptTracker.Inc` | internal/server/storage/inmem/login_attempt.go:43-54 | Counts in the current window or opens a new one. |
| `LoginAttempts.LoginAttemptTracker.Reset` | internal/server/storage/inmem/login_attempt.go:56-62 | Forgets the account's entry only. |
| `Password.GeneratePassword` | internal/client/crypto/password.go:31-91 | For every option set and every random stream: a password is made if and only if the stream has 2 * n - 1 draws for n = max(8, length); it has n characters, position by position those that the draws name, at least one of every class that the options enable and none of the others. |
| `Password.RandomPermutation` | internal/client/crypto/password.go:102-118 | The Fisher-Yates loop computes the shuffle by its first n - 1 draws, a permutation of 0, ..., n - 1, and fails exactly when there are fewer. |
| `Password.EachPermutationOnce` | internal/client/crypto/password.go:102-118 | The shuffle is fair: each permutation comes from exactly one sequence of draws in range. |
| `Password.PermutationHits` | internal/client/crypto/password.go:102-118 | Distinct values below n, n of them, are all the values below n. |
| `Password.FilledIsStrong` | internal/client/crypto/password.go:62-90 | Filling the positions of a permutation, the classes first, leaves no position out and no class missing. |
| `Password.Fill` | internal/client/crypto/password.go:70-88 | One character of every class first, then any, each at its own position and by its own draw; it fails exactly when there are fewer draws than positions. |
| `Password.RandomChar` | internal/client/crypto/password.go:93-100 | The character of the set that the next draw names. |

## Left out

- Convergence.QuietSyncsConverge: only for runs without failed calls, without imports and without edits during a Sync. Records get stuck by failed calls (Scenarios.StuckIsReachable) and by foreign writes during a Sync (Stuck.BecomesStuckExactlyWhen, Scenarios.StuckWithoutFailureIsReachable); for a single Sync or iteration, whatever happened before it, Lone.ConvergesExactlyWhen has the exact condition. That nobody else writes the owner's records during a Sync, that no two handlers of an awaited request overlap and that its answer is not forgotten are needed: MissedWrites.WriteIsStillListedAfterPushExactlyWhen, SyncService.OverlapReplacesAnswer.
- Lone.ConvergesExactlyWhen: from the start or the pull on, edits during the Sync, imports, a second handler under the key that the device waits for, and forgetting its answer are excluded.
- Answers.RepeatsAreAnsweredAlikeExactlyWhen: for runs in which no handler saves by a clock that went back behind the one that made the entry; another process of the server has its own memory and is not part of this model.
- MissedWrites.WriteIsStillListedAfterPushExactlyWhen: from the foreign write on, the chunks are answered with nothing in between; chunks answered before it count by their results.
- LocalEdits.NoLocalEditIsLost: says nothing of edits that overlap a Sync; for edits of a batch that waits for its replay LostReply.EditsSurviveReplayExactlyWhen has the exact condition.
- Tombstones.DeletedStaysDeleted: REST updates (VaultService.Update) are not a step of the system, since the PUT handler builds a record without the deleted flag (internal/server/rest/vault_handlers.go:219-226) and so can undelete.
- LostReply.LostReplyEqualsDelivered: the device makes no step in between, and the clock readings in between are within the key's life.
- IncrementalPull.PullOnlyDeviceMirrorsServer: supposes of the server's steps that an id is written by one owner only; Ownership.ServeRespectsOwners proves it of the system, where ids are generated fresh.
- Password.RandomPermutation: a bounded random number is the next draw's remainder; how the library turns random bytes into it is not part of this model.
- Syncer.Syncer.Sync: a reply that the server cannot have sent (ids never generated, an id twice in a pull) is treated as a failed call. Go's methods are cut into smaller ones here (MergeIncoming, Exchange, Register, SendChunk, PushChunk, Request, ReplayBatch, PullPhase, PushPhase, Iteration, Converge, Replay), each for one part of a loop body, FillShuffled is the second half of GeneratePassword, and UpsertAll the loop of Push.
- RefreshTokens.RotatesExactlyWhen: calls come one after the other; concurrent calls of Rotate on one token are not modelled.
- LoginAttempts.FailuresAreBounded: logins come one after the other, and limits with maxAttempts below 1 are not covered.
- Crash durability: the store is memory only; writing and reading the vault file, and a process that dies between the two, are not part of this model.
- The version counter is unbounded here and an int64 in the code: its wrap-around is not modelled.
- The idempotency key under which an answer is stored is the pair of owner and key, not the string joined with a colon.
- Errors of JSON and of the repositories other than conflict and not found: the in-memory stores have none.
- Store.DeleteRecord has no caller.
- VaultManager.Get and GetMeta decrypt and change nothing.
- Overlapping Syncs on one device.
- Challenges, users and the check of the HMAC: their outcomes are arbitrary inputs of LogIn; issuing the tokens after a successful login is not part of it.
- PostgreSQL repositories, HTTP handlers, middleware, configuration, the command line and the terminal interface.
- AES-GCM, Argon2id, HMAC, JWT, TOTP, key wrapping and the export bundle: foreign calls and their inverses.
- Password strength scores and CSV import: easy and apart from the rest.
