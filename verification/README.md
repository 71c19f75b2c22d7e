# Verified model of the storage and session core

This project models, in Dafny 4.11, the stateful core of a Go storage library and proves what that core is for.
It covers six components:

- **Session stores** (`SessionModel`, `SessionMemory`, `SessionControl`, `SessionLaws`, `SessionSites`, `SessionCap`). The
  in-memory store with its per-user index, the policy wrapper with site isolation and the per-user cap, two
  wrappers of different sites on one store, and any number of concurrent `Create` calls.
- **The key-value session store** (`KeyValue`, `SessionKvs`, `SessionRefinement`, `SessionIndexTtl`,
  `SessionIndexRuns`). Sessions and index records in one flat key space, proved to answer as the in-memory store
  does, with the exact conditions under which an index record outlives the sessions it lists, and a promise of
  callers that ensures it.
- **One-way sync** (`Paths`, `ObjectMemory`, `SyncModel`, `SyncPlan`, `SyncPool`, `SyncPoolSafety`,
  `SyncMeaning`, `SyncEngine`, `SyncMove`, `SyncRerun`). Subtrees, single copies with retries, the plan, the worker pool as a
  step relation, `Sync`, `Move`, dry runs and second runs.
- **Bidirectional sync** (`BisyncModel`, `BisyncMeaning`, `BisyncPlan`, `BisyncSafety`, `BisyncCounts`, `BisyncRecord`,
  `BisyncOutcome`, `BisyncRerun`, `BisyncCopies`, `Bisync`). The diff, the conflict strategies, the three-copy protocol that keeps
  both versions, and what every moment of a run and every repeated run preserve.
- **Comparison** (`CheckModel`, `Check`). The chunk loop that decides equality of two streams, and the partition
  that `Check` reports.
- **Transfer** (`RateLimit`, `ChannelStream`, `FanOut`). The token bucket under concurrent readers, the
  channel stream under every interleaving, and fan-out writes in their three modes.

Code that updates fields, maps or arrays in place is modelled by classes and methods with loops, and each method
is proved against a specification function or relation; what the library promises is proved about these.
Concurrency is modelled by step relations, and results about it hold for every run. A copy that fails leaves
anything at its destination and changes nothing else, which is `SyncModel.CopyResult`; the in-memory backend is
proved to behave so.

What the specification functions decide is stated a second time in terms a caller sees, and the two are proved to
agree: `SyncMeaning` and `BisyncMeaning` say what becomes of every path by the files, times, sizes and hashes on both
sides and the options; `SessionLaws` says what each session call answers by the stored rows, their ends and their sites.

Time is an integer number of nanoseconds that never goes back. Fractions are exact. Parameters stand for the
file filter, the timestamp comparison, and serialization. Where things may fail, and whether a caller cancels, are
inputs, so a contract says what goes right when nothing fails; whether they do fail there, what a failure leaves
behind, map iteration order, short reads and the time a sleep takes are arbitrary choices.

## Where the code and its documentation differ

The model follows the code. Each difference is stated by the member named.

- An error limit of zero is documented to stop at the first error (`docs/reference/options.md:99`). It never
  stops: `SyncPoolSafety.ZeroLimitNeverStops`.
- A site is documented never to see or delete another site's sessions (`docs/session/controls.md:51-60`). Looking
  up an expired session of another site reports it as expired and deletes it. `SessionSites.IsolationExact` says
  that this, and reusing another site's ID, are the only exceptions.
- A quorum write is documented to reach a majority of backends; it counts only the writers that opened:
  `FanOut.QuorumVersusBackends`, `FanOut.QuorumOfMinority`.
- `Move` is documented to delete source files after a successful copy. It checks only that the path exists, which
  a broken copy satisfies, and so does a file whose update was dropped when errors stopped the copies:
  `SyncMove.BrokenCopyPassesMoveCheck`, `SyncMove.DroppedUpdatePassesMoveCheck`. `SyncMove.MoveKeepsContents` says
  when contents survive an error-free move.
- `IgnoreExisting` is documented to skip every file the destination has. A file that the filter rejects there, by
  size or time, is overwritten: `SyncRerun.ExistingOverwritten`.
- Keeping both versions of a conflict is not stable: a second run may overwrite the version the first one saved
  (`BisyncOutcome.RerunKeepsSaved`, `BisyncOutcome.ConflictRecurs`, `BisyncRerun.RerunBothAgain`), and a file already stored under a conflict
  path is overwritten (`BisyncOutcome.CollisionOverwrites`).
- A dry run of `Bisync` predicts its copies but not its updates: `BisyncOutcome.DryRunCounts`. Its error limit is
  looked at only after failed one-sided copies, never after failed conflicts: `BisyncRecord.ConflictErrorsNeverStop`.
- `InSync` ignores files that could not be compared: `Check.InSyncMeans`. A read failure on one side only is
  reported as a difference, not as an error: `CheckModel.FaultsInVerdict`.
- The index record of a session without a time to live is gone after an hour, and touching a session on the
  default time to live lets it outgrow its index: `SessionIndexTtl.EternalSessionLosesIndex`,
  `SessionIndexTtl.TouchOutgrowsIndex`.
- A rate-limited read larger than the bucket sleeps for ever: `RateLimit.OversizedReadNeverEnds`.
- Moving an object onto itself in the in-memory backend removes it: `ObjectMemory.Backend.Move`.

## Model

| member | source | states |
|---|---|---|
| SessionModel.ValidSessionID | session/session.go:128-141 | The loop accepts exactly the IDs that are not empty, not longer than 256, and made of ASCII letters, digits, '-', '.' and '_' |
| SessionModel.TTL | session/session.go:83-92 | The time left is positive exactly before the expiry, and then ends at it |
| SessionModel.SortByCreation | session/backend/memory/memory.go:303-310 | The exchange sort orders by creation time and permutes the array |
| SessionModel.ListingElements | session/backend/memory/memory.go:276-313 | A listing has the user's stored sessions and as many entries as they are |
| SessionModel.ListingDistinct | session/backend/memory/memory.go:276-313 | No ID occurs twice in a listing |
| SessionLaws.Getting | session/backend/memory/memory.go:78-106 | What a get finds is what is stored and not past its end; what is past it is reported and removed, and nothing else changes |
| SessionLaws.GetAfterCreate | session/backend/memory/memory.go:47-106 | A created session is got back until its end; a create fails exactly without an ID or on a closed store |
| SessionLaws.GetAfterUpdate | session/backend/memory/memory.go:78-134 | An update succeeds exactly on a stored ID, and the session is got back with the stamp |
| SessionLaws.GetAfterTouch | session/backend/memory/memory.go:78-219 | A touch succeeds exactly on a stored ID, and the session is got back with the new access time |
| SessionLaws.GetAfterDelete | session/backend/memory/memory.go:78-170 | After a delete the ID is not found |
| SessionLaws.OtherRowsStay | session/backend/memory/memory.go:47-219 | No call but the removal of a user touches the row of an ID it was not given |
| SessionLaws.ListAfterDeleteByUser | session/backend/memory/memory.go:173-313 | Removing a user counts the sessions, leaves none to list, and leaves the listings of all others |
| SessionMemory.MemoryStore.constructor | session/backend/memory/memory.go:30-44 | A new store is empty, open, and in index agreement |
| SessionMemory.MemoryStore.Create | session/backend/memory/memory.go:47-75 | Answers and stores as the plain table does; afterwards the index agrees with a full scan if and only if the ID was not stored for another user |
| SessionMemory.MemoryStore.Get | session/backend/memory/memory.go:78-106 | A session is found if and only if it is stored and has no end or `now` is not past it; past its end it is reported as expired and is gone from map and index; otherwise as not found |
| SessionMemory.MemoryStore.Update | session/backend/memory/memory.go:109-134 | Stamps the caller's record in place and stores it; index agreement is kept if and only if the owner stays |
| SessionMemory.MemoryStore.Delete | session/backend/memory/memory.go:137-151 | Removes the row and its index entry, and no index set is left empty |
| SessionMemory.MemoryStore.DeleteSessionLocked | session/backend/memory/memory.go:154-170 | Removes one row, keeping index agreement |
| SessionMemory.MemoryStore.DeleteByUserID | session/backend/memory/memory.go:173-197 | Removes all rows of the user, counts them, and keeps index agreement |
| SessionMemory.MemoryStore.Touch | session/backend/memory/memory.go:200-219 | Changes only the last access of a stored session |
| SessionMemory.MemoryStore.RemoveExpired | session/backend/memory/memory.go:252-266 | The sweep leaves exactly the rows that have no end or are not past it, unchanged and in index agreement |
| SessionMemory.MemoryStore.ListByUserID | session/backend/memory/memory.go:276-313 | Found through the index, the answer is a sorted permutation of a full scan |
| SessionMemory.MemoryStore.Close | session/backend/memory/memory.go:222-235 | Empties both maps |
| SessionMemory.PutKeepsIndex | session/backend/memory/memory.go:61-72 | How the index of a full scan changes when a row is stored: the user's set gains the ID, others change exactly if the owner did |
| SessionMemory.ReplaceKeepsIndex | session/backend/memory/memory.go:127-132 | Storing over an ID without re-indexing is right if and only if the owner stays |
| SessionMemory.DropKeepsIndex | session/backend/memory/memory.go:154-170 | Removing an ID, and its set if it becomes empty, gives the index of the remaining rows |
| SessionMemory.DropUserKeepsIndex | session/backend/memory/memory.go:173-197 | Removing a user's rows removes exactly that user's set |
| SessionControl.ControlledStore.ValidateSession | session/wrapper.go:86-129 | Rejects exactly the missing and the ill-formed sessions |
| SessionControl.ControlledStore.Create | session/wrapper.go:253-273 | Stamps the site in place, evicts what must go, and stores, with all error answers |
| SessionControl.ControlledStore.EnforceSessionLimit | session/wrapper.go:278-352 | Removes exactly the oldest sessions of the user and site that are in the way of one more, and no other row |
| SessionControl.ControlledStore.Get | session/wrapper.go:356-367 | Found if and only if the session is stored, not past its end, and of the wrapper's site if one is configured; another site's live session is not found |
| SessionControl.ControlledStore.VerifyOwnership | session/wrapper.go:390-399 | The site check ahead of a write |
| SessionControl.ControlledStore.Update | session/wrapper.go:405-422 | Refuses another site's session, otherwise stamps the site and updates; the caller's record carries the stamp from the ownership check on, even if a later step fails |
| SessionControl.ControlledStore.Delete | session/wrapper.go:427-435 | Leaves another site's live session in place and reports success |
| SessionControl.ControlledStore.DeleteByUserID | session/wrapper.go:442-467 | Removes and counts exactly the user's sessions of the site |
| SessionControl.ControlledStore.Touch | session/wrapper.go:472-477 | Touches only sessions of the site |
| SessionControl.ControlledStore.ListByUserID | session/wrapper.go:492-515 | Lists exactly the user's sessions of the site, in order |
| SessionControl.CreateWithinCap | session/wrapper.go:302-349 | A successful capped Create of a fresh ID evicts exactly max(0, n - M + 1) sessions, each no younger than any that stay, changes no other row, and ends within the cap |
| SessionControl.OldestAreEviction | session/wrapper.go:316-349 | The first sessions of a sorted listing are a right choice of victims |
| SessionControl.OwnListing | session/wrapper.go:492-515 | Filtering a listing by site is the listing of the site's own rows |
| SessionLaws.Refusals | session/wrapper.go:86-260 | Which sessions are refused and in which order: ill-formed, not serializable, too large; a stamp changes the site only, and only if one is configured |
| SessionLaws.GetAtHome | session/wrapper.go:356-367 | On a missing session or one of its site the wrapper gets what the table has |
| SessionLaws.TouchAtHome | session/wrapper.go:472-477 | There a touch is the table's, unless a site is configured and the session is missing or past its end, when it answers as a get |
| SessionLaws.DeleteAtHome | session/wrapper.go:427-435 | There a delete is the table's, except that with a site configured a session past its end is removed and reported as expired, and a missing one is a success even on a closed store |
| SessionLaws.UpdateAtHome | session/wrapper.go:405-422 | There an update is refused for the session, then for what the look-up says, then for its data, and otherwise is the table's update of the session at the wrapper's site |
| SessionLaws.ElsewhereHidden | session/wrapper.go:356-477 | A live session of another site is not found by get, touch and update, is left by a delete that reports success, and nothing changes |
| SessionLaws.ListAtHome | session/wrapper.go:492-515 | A listing is the table's on the rows of the site |
| SessionLaws.DeleteByUserAtHome | session/wrapper.go:442-467 | Removing a user is the table's on the rows of the site, and leaves all other rows as they were |
| SessionLaws.AllAtHome | session/wrapper.go:356-515 | Where all rows are the wrapper's, get, list and removal of a user are the table's outright |
| SessionLaws.CreateAtHome | session/wrapper.go:253-273 | A create is refused for the session or its data; otherwise it removes as many of the oldest sessions as are one too many for the cap, and is the table's create of the session at the wrapper's site |
| SessionLaws.CreateWithRoom | session/wrapper.go:253-308 | With room under the cap, or no cap, a create is the table's |
| SessionSites.IsolationExact | docs/session/controls.md:51-62 | A call does to its site what it would do on a private store, and nothing to others, if and only if it neither looks up another site's expired session nor creates over another site's ID |
| SessionSites.SitesIndependent | session/wrapper.go:253-515 | In any run of whole calls through wrappers of different sites on one store, without crossing calls, each site's calls and answers are a run of a private store holding only its own sessions |
| SessionSites.PrivateRunsAgree | session/wrapper.go:253-515 | With distinct creation times two private runs with the same calls give the same answers and states |
| SessionSites.OutcomeUnique | session/wrapper.go:278-352 | With distinct creation times one call has one outcome |
| SessionSites.EvictionUnique | session/wrapper.go:316-349 | With distinct creation times the victims are determined |
| SessionCap.StepKeepsInv | session/wrapper.go:278-352 | Every begin, listing, single eviction, insert, abandoned call and foreign step keeps the invariant of the cap |
| SessionCap.RunKeepsInv | session/wrapper.go:278-352 | The invariant holds in every reachable state |
| SessionCap.CapUnderConcurrency | session/wrapper.go:278-352 | With cap M and at most k calls in flight the user holds at most max(initial, M - 1 + k) sessions on the site, and at most M - 1 + k once a call has finished |
| SessionCap.CreateIsRun | session/wrapper.go:253-352 | Whatever the wrapper's Create may do, a call that nothing comes between can do by these steps, with the same rows at the end |
| SessionCap.ListingSpares | session/wrapper.go:302-349 | A listing dooms no more than it must: it spares all sessions if there is room, and else the newest M - 1 |
| KeyValue.KeyValueStore.Get | kvs/backend/memory/memory.go:50-72 | Finds exactly the unexpired keys |
| KeyValue.KeyValueStore.Set | kvs/backend/memory/memory.go:75-94 | Stores with a deadline exactly if the time to live is positive |
| KeyValue.KeyValueStore.Delete | kvs/backend/memory/memory.go:97-107 | Removes the key and nothing else |
| KeyValue.KeyValueStore.List | kvs/backend/memory/memory.go:110-133 | Lists each unexpired key with the prefix once |
| KeyValue.KeyValueStore.RemoveExpired | kvs/backend/memory/memory.go:165-179 | Drops exactly the expired entries |
| KeyValue.SweepUnobservable | kvs/backend/memory/memory.go:165-179 | No read at the time of a sweep or later can tell that it happened |
| KeyValue.LookupAfterPut | kvs/backend/memory/memory.go:50-94 | What was stored is found until its time to live is over, or always if that is not positive; other keys are not affected |
| SessionKvs.KeysDisjoint | session/backend/kvs/kvs.go:52-58 | The key of a well-formed session ID is never the key of an index record |
| SessionKvs.GetAfterCreate | session/backend/kvs/kvs.go:61-133 | A created session is got back until its end, and without an end, or with one already past, for the default time to live |
| SessionKvs.GetAfterUpdate | session/backend/kvs/kvs.go:98-171 | So is an updated one, with the stamp |
| SessionKvs.FetchMeans | session/backend/kvs/kvs.go:396-425 | A listing has exactly the sessions of the indexed IDs whose records are readable and not past the session's end, whatever it deletes on the way |
| SessionKvs.KvsStore.Create | session/backend/kvs/kvs.go:61-95 | Writes the session record and its index record |
| SessionKvs.KvsStore.Get | session/backend/kvs/kvs.go:98-133 | A readable record gives its session if that has no end or is not past it, and else reports it as expired and is gone with its index entry; without such a record nothing is found or changed |
| SessionKvs.KvsStore.Update | session/backend/kvs/kvs.go:136-171 | Rewrites the record of a live session with a new deadline and leaves the index |
| SessionKvs.KvsStore.Delete | session/backend/kvs/kvs.go:174-206 | Removes the record and its index entry; a missing session is a success |
| SessionKvs.KvsStore.DeleteByUserID | session/backend/kvs/kvs.go:209-237 | Removes the listed sessions and the index record, and counts them |
| SessionKvs.KvsStore.Touch | session/backend/kvs/kvs.go:240-248 | A get followed by an update with the new access time |
| SessionKvs.KvsStore.AddToUserIndex | session/backend/kvs/kvs.go:278-302 | Appends an ID that is not listed yet and renews the deadline only then |
| SessionKvs.KvsStore.RemoveFromUserIndex | session/backend/kvs/kvs.go:304-329 | Drops the ID, and the record if nothing is left |
| SessionKvs.KvsStore.CleanupOrphanedIndexes | session/backend/kvs/kvs.go:346-393 | Goes over exactly the users with a live index record, each once; if records list well-formed IDs only, each then lists exactly its IDs that can be read, or is gone if there are none, and nothing else is touched |
| SessionKvs.CleanupRound | session/backend/kvs/kvs.go:356-392 | A round over any order of distinct users does so |
| SessionKvs.KvsStore.ListByUserID | session/backend/kvs/kvs.go:396-431 | The readable sessions of the index in creation order; expired ones are deleted on the way |
| SessionRefinement.Simulate | session/backend/kvs/kvs.go:61-431 | Every operation on the records is one on the plain table with the same answer, up to the update time, and keeps each index listing its user's sessions exactly once |
| SessionRefinement.SimulateList | session/backend/kvs/kvs.go:396-431 | A listing through the index record is a listing of the table |
| SessionRefinement.BackgroundIsIdle | session/backend/kvs/kvs.go:346-393 | While nothing has run out, cleanup rounds and sweeps change no record |
| SessionRefinement.KvsRefinesTable | session/backend/kvs/kvs.go:61-431 | From the empty store, every sequential run of calls, cleanup rounds and sweeps with fresh well-formed IDs, kept owners and no expiry is a run of the table with the same answers |
| SessionIndexTtl.CreateCovers | session/backend/kvs/kvs.go:61-95 | Create keeps every live session in an index record that lasts as long, if and only if its guard holds |
| SessionIndexTtl.UpdateCovers | session/backend/kvs/kvs.go:136-171 | The same for Update, whose guard, in terms of records, is that the user's index lists the session and lasts as long as the deadline Update gives it |
| SessionIndexTtl.DeleteCovers | session/backend/kvs/kvs.go:174-206 | Delete keeps it without any condition |
| SessionIndexTtl.DeleteUserCovers | session/backend/kvs/kvs.go:209-237 | So does deletion by user |
| SessionIndexTtl.CleanAllCovers | session/backend/kvs/kvs.go:346-393 | So does a cleanup round, in any order of the index records |
| SessionIndexTtl.StepCovers | session/backend/kvs/kvs.go:61-431 | A step keeps it if and only if its guard holds, for all operations, cleanups, sweeps and clock advances |
| SessionIndexTtl.GuardedRunsCover | session/backend/kvs/kvs.go:278-302 | Over any run of guarded steps, at every time, a session that can be read is in an index record that expires no earlier |
| SessionIndexTtl.ListedWhileLive | session/backend/kvs/kvs.go:262-276 | A covered session is listed for its user at every later time at which it can be read |
| SessionIndexRuns.CreateKeeps | session/backend/kvs/kvs.go:61-95 | A Create with an ID of its own, an end in the future and no earlier than the user's other sessions keeps every current session listed for as long as it lasts |
| SessionIndexRuns.UpdateKeeps | session/backend/kvs/kvs.go:136-171 | So does an Update that keeps the owner and does not raise the end, even to a time that is past |
| SessionIndexRuns.StepKeeps | session/backend/kvs/kvs.go:61-431 | So does every promised call, and without any promise every other call, cleanup round, sweep and clock advance |
| SessionIndexRuns.IndexOutlivesSessions | session/backend/kvs/kvs.go:278-329 | Over any run from the empty store in which callers keep that promise, at every time, a stored session that is not past its end can be read and is listed in its user's unexpired index record |
| SessionIndexTtl.EternalSessionLosesIndex | session/backend/kvs/kvs.go:75-92 | A stored session without any time to live is no longer listed after an hour |
| SessionIndexTtl.TouchOutgrowsIndex | session/backend/kvs/kvs.go:240-248 | A touched session on the default time to live is readable but not listed |
| Paths.RelativeRecovers | object/sync/sync.go:424-432 | A listed path is recovered from its relative path if and only if it lies below the base as a directory |
| Paths.BoundaryNeeded | object/backend/memory/backend.go:208-211 | Listing "data" also lists "database/x", whose relative path is that of "data/base/x" |
| Paths.SubtreesMeet | object/sync/sync.go:171-172 | Two subtrees share a path if and only if one base is within the other |
| Paths.WriteBelow | object/sync/sync.go:171-172 | Writing below a base is a write to one relative path of its tree |
| Paths.DeleteBelow | object/sync/sync.go:257-269 | Deleting below a base deletes one relative path of its tree |
| Paths.OtherSubtreeUntouched | object/sync/sync.go:171-172 | A write below one base changes nothing below a base that does not overlap it |
| ObjectMemory.ListRelative | object/sync/sync.go:413-432 | If no file crosses the base boundary, listing and cutting off the base gives each file of the subtree once |
| ObjectMemory.Backend.List | object/backend/memory/backend.go:182-216 | Lists each file whose path starts with the prefix once |
| ObjectMemory.Backend.NewReader | object/backend/memory/backend.go:83-133 | A snapshot of the requested window, or the right refusal |
| ObjectMemory.WindowMeans | object/backend/memory/backend.go:116-128 | A window has the bytes from the offset on, as many as are left or as the limit allows |
| ObjectMemory.Backend.Exists | object/backend/memory/backend.go:136-156 | Whether the path is stored |
| ObjectMemory.Backend.Delete | object/backend/memory/backend.go:159-179 | Removes the path; a missing one is a success |
| ObjectMemory.Backend.Copy | object/backend/memory/backend.go:341-384 | All or nothing |
| ObjectMemory.Backend.Move | object/backend/memory/backend.go:387-428 | The source is gone; the destination holds its bytes if and only if the paths differ |
| ObjectMemory.MemoryWriter.Write | object/backend/memory/backend.go:534-543 | Appends to the buffer and leaves the backend alone |
| ObjectMemory.MemoryWriter.Close | object/backend/memory/backend.go:545-571 | Commits the bytes once; later closes do nothing |
| ObjectMemory.MemoryReader.Read | object/backend/memory/backend.go:580-589 | The next bytes of the snapshot, and the end exactly when all are read |
| ObjectMemory.Transfer | object/sync/sync.go:509-513 | What is written is a beginning of what the source holds, and all of it unless the transfer breaks |
| ObjectMemory.CopyFileSingle | object/sync/sync.go:479-515 | Success is a whole copy, and certain if nothing interrupts it and both paths can be used; a failure touches only the destination path and leaves there a beginning of the source |
| ObjectMemory.CopyFileWithContext | object/sync/sync.go:468-476 | Retries keep the contract of one attempt |
| SyncModel.Subtree.ListFiles | object/sync/sync.go:413-465 | Each accepted file once, with its size, time and hash |
| SyncPlan.Compare | object/sync/sync.go:99-119 | The loop makes the decision on every source file and removes its path from the map |
| SyncPlan.MakePlan | object/sync/sync.go:80-128 | Each path to copy once and no other, marked new or update; each extra file once exactly under DeleteExtra; the other source files skipped |
| SyncMeaning.PlanMeans | object/sync/sync.go:104-133 | Which paths are copied and deleted, by the files, the filter and the options: missing ones; those that differ in a size, hash or time that is compared, unless existing files are ignored; and the extra ones, if asked for |
| SyncMeaning.CountsMean | object/sync/sync.go:99-134 | What the counters count: new, changed and extra files and those offered |
| SyncMeaning.SamePaths | object/sync/options.go:36-38 | Without a filter and directories, deletion of extra files leaves both sides with the same paths, and otherwise the destination has the paths of both |
| SyncMeaning.HashesDecide | object/sync/options.go:275-278 | With stored hashes that tell contents apart, compared and existing files not ignored, every file offered ends with the source bytes, unless a directory is in its place |
| SyncMeaning.Mirrors | object/sync/options.go:269-293 | So, without a filter and directories and with extra files deleted, the destination ends as a mirror of the source |
| SyncPlan.FileMap | object/sync/check.go:36-42 | The files of a listing that are not directories, by path |
| SyncPlan.Extras | object/sync/sync.go:121-128 | The remaining files, each once |
| SyncPoolSafety.CustodyKept | object/sync/sync.go:159-232 | Every step leaves each action with the channel, one worker, or one outcome |
| SyncPoolSafety.TreeKept | object/sync/sync.go:185-202 | Every step keeps: finished copies hold the source bytes, only failed paths hold anything else, all other paths are untouched |
| SyncPoolSafety.CountersKept | object/sync/sync.go:204-211 | Every step keeps the counters equal to sums over the outcomes |
| SyncPoolSafety.BoundKept | object/sync/sync.go:188-199 | Every step keeps the error count below the limit plus the workers that stopped |
| SyncPoolSafety.StepKeepsInv | object/sync/sync.go:151-232 | All of these together, for every step of sender, workers and canceller |
| SyncPoolSafety.RunKeepsInv | object/sync/sync.go:151-232 | They hold in every state of every run |
| SyncPoolSafety.NeverStuck | object/sync/sync.go:152-228 | No deadlock: until all is done the sender or a worker can move, for the channel is as large as the plan |
| SyncPoolSafety.RunsEnd | object/sync/sync.go:151-228 | No run takes more than six steps an action, one a worker and two more |
| SyncPoolSafety.ErrorBound | object/sync/sync.go:188-199 | At most MaxErrors - 1 + workers errors after the copies |
| SyncPoolSafety.ZeroLimitNeverStops | object/sync/sync.go:194 | With no positive limit errors never cancel the pool, and every action is attempted |
| SyncPoolSafety.CancelledExactly | object/sync/sync.go:194-199 | A pool that has ended was cancelled if and only if the caller did it or the errors reached a positive limit |
| SyncPoolSafety.CountedPaths | object/sync/sync.go:204-211 | What is counted as copied or updated, at any moment, are as many different paths that hold the source bytes |
| SyncPoolSafety.Accounting | object/sync/sync.go:159-232 | Without cancellation copies, updates and errors add up to the plan |
| SyncPoolSafety.ErrorFreePool | object/sync/sync.go:151-232 | For every schedule and worker count an error-free pool leaves the one destination and the counters of the whole plan; a dry run the same counters and no change |
| SyncEngine.RunPool | object/sync/sync.go:151-232 | Under any schedule the pool ends, in a final state of a run |
| SyncEngine.DeletePhase | object/sync/sync.go:240-284 | Deletes only planned paths and appends only failed deletions, where a deletion may fail; without errors all of them are gone and counted; stops at the error limit |
| SyncEngine.CopyPhase | object/sync/sync.go:145-232 | Unless stopped, each planned path holds the source bytes or is reported and counts add up to the source files; never more is counted than has landed; stopped if and only if the errors reach the limit; errors are of planned paths that may fail, and bounded |
| SyncEngine.Sync | object/sync/sync.go:31-309 | An error-free run ends in the destination and counters that the two trees determine: missing files and those that differ in what the options compare hold the source bytes, extra ones are gone if asked for, and nothing else changed; the counters are the numbers of new, changed, extra and remaining files. A run in which nothing goes wrong is error-free. In every run each planned path is copied, reported or untouched, unplanned ones are untouched, failed copies come before failed deletions, no more is counted than has landed, and every error has a cause, but for failed copies beyond the limit. Unless the failed copies in the result reach the limit, all planned paths were tried and all source files are accounted for. Errors are at most MaxErrors + Concurrency |
| SyncEngine.CountsOfPlan | object/sync/sync.go:99-134 | The counters of a plan are sizes of sets determined by the two trees |
| SyncEngine.SyncedAsAsked | object/sync/sync.go:104-284 | The destination of an error-free run is, path by path, what the options ask for |
| SyncEngine.PredictedMeans | object/sync/sync.go:99-134 | Copied, updated and deleted are the numbers of new, changed and extra files, and with the skipped ones they add up to the files offered |
| SyncMove.DeleteSources | object/sync/sync.go:340-388 | Removes only movable files whose path the destination has |
| SyncMove.Move | object/sync/sync.go:324-392 | No path is ever lost; what is gone is at the destination whole, reported, or as the destination had it, the last only if it was not to be copied or the failed copies in the result reach the limit; without errors, as when nothing goes wrong, the source keeps exactly what it does not offer, and the destination is what the options ask for |
| SyncMove.MoveKeepsContents | object/sync/sync.go:320-392 | An error-free move keeps all contents if and only if each file offered is missing at the destination, differs there in something compared and may be replaced, or is already there with the same bytes |
| SyncMove.BrokenCopyPassesMoveCheck | object/sync/sync.go:360-375 | A run of the pool whose one copy breaks, is reported, and leaves a path that the check of Move accepts |
| SyncMove.DroppedUpdatePassesMoveCheck | object/sync/sync.go:164-199 | A run of the pool that stops at its error limit with an update neither made nor reported, whose path the check of Move accepts |
| SyncMove.SyncDetermined | object/sync/sync.go:151-309 | Two error-free runs from the same trees end with the same files and bytes, for any worker counts |
| SyncMove.DryRunPredicts | object/sync/sync.go:185-211 | The counters that error-free runs of Sync report do not depend on the dry-run flag or the number of workers |
| SyncMove.RejectedUntouched | object/sync/sync.go:448-459 | A path-only filter protects what it rejects from copies and deletions |
| SyncRerun.RerunCopies | object/sync/options.go:269-293 | After an error-free run the next deletes nothing and copies exactly the files just written that the filter now rejects or that still differ in a size, hash or time that is compared |
| SyncRerun.RerunIsQuiet | object/sync/options.go:269-293 | Where sizes alone are compared, a second run copies, updates and deletes nothing |
| SyncRerun.ExistingOverwritten | object/sync/sync.go:104-117 | After an error-free run with IgnoreExisting a file that was present is overwritten if and only if the source has an accepted file and the filter rejects the present one |
| BisyncPlan.SeenMap | object/sync/bisync.go:241-254 | The accepted files of a side by path |
| BisyncPlan.PlanActions | object/sync/bisync.go:260-298 | One action for each path that calls for one, in arbitrary order; all seen paths are planned or skipped |
| BisyncPlan.PlanOfIsPlan | object/sync/bisync.go:270-298 | For every iteration order of the maps the actions are the plan |
| BisyncMeaning.ActionsMean | object/sync/bisync.go:267-298 | A file is copied if only one side offers it, and in conflict if both do and their stored hashes, or else their sizes or times, differ |
| BisyncMeaning.ApartMeans | object/sync/bisync.go:548-588 | When no conflict path is itself to be copied or resolved |
| BisyncCopies.CopyFile | object/sync/sync.go:468-515 | One copy, at any moment and at its end: success is whole, and certain where nothing may fail; nothing else changes |
| BisyncCopies.KeepBothVersions | object/sync/bisync.go:548-588 | At every moment of the three copies, whichever fails, the newer side is intact and the older version is in place or saved; success puts both versions on both sides |
| BisyncCopies.ResolveConflict | object/sync/bisync.go:486-600 | Each strategy writes only the losing version's path and the conflict path, which BisyncMeaning.MergedMeans and BisyncMeaning.SafeMeans say by times and sizes; success leaves the chosen versions on both sides, and is certain where nothing may fail |
| Bisync.CopyDirection | object/sync/bisync.go:323-361 | Copies a one-sided file and records it or its error |
| Bisync.HandleConflict | object/sync/bisync.go:403-444 | Records each conflict once, with its updates or its error |
| BisyncRecord.TalliedOneMore | object/sync/bisync.go:351-444 | Every action keeps the record exact: counters are the sums over the paths without an error, conflicts are listed once with both files and whether they were resolved, errors are of actions and at most one each, and all actions are accounted for |
| BisyncRecord.ConflictErrorsNeverStop | object/sync/bisync.go:403-445 | Failed conflicts alone never reach the error limit |
| Bisync.RunActions | object/sync/bisync.go:368-446 | The loop carries out and records all actions, or those before a cancellation, or those up to the failed one-sided copy at which the errors reach the limit |
| Bisync.Bisync | object/sync/bisync.go:187-481 | Every moment, write by write, is safe whatever fails, and under KeepBoth with free conflict paths no file is lost at any of them; only planned paths are touched. The run is a sequence of states, each achieved by its action unless that failed, also where conflict paths collide; the actions are all, unless the run is cancelled or stopped. These actions, the errors and the initial trees determine every counter, the conflicts and the skipped files. Every action without an error has landed, and so settled its path as the strategy asks; the others are untried; and an error-free run ends in the merged trees, with counters that are the numbers of one-sided, written and conflicting files. A run stops at the first failed copy that reaches the limit, and not below it. Errors have causes, and no path has two |
| BisyncSafety.StepSafe | object/sync/bisync.go:368-446 | Any moment of an action keeps safety for all files |
| BisyncSafety.OthersKept | object/sync/bisync.go:368-446 | An action disturbs no other action, done or to come |
| BisyncSafety.AllLanded | object/sync/bisync.go:368-446 | When every action has landed the sides are merged |
| BisyncMeaning.MergedMeans | object/sync/bisync.go:497-600 | The merged trees, path by path: NewerWins leaves the bytes of the strictly later time on both sides and those of side two on a tie, LargerWins the same by length, SourceWins and DestWins those of their side, untouched there, KeepBoth the later version (side one on a tie) under the path and the other under the conflict path; Skip, Report and unknown strategies leave both sides; one-sided files are on both |
| BisyncMeaning.SafeMeans | object/sync/bisync.go:497-600 | At every moment, whatever fails: under SourceWins side one, under DestWins side two is unchanged at every path it offers; under NewerWins, LargerWins and KeepBoth the winning side is unchanged at a path in conflict, and under KeepBoth the older version is there or saved; under the others nothing in conflict changes |
| BisyncMeaning.LandedMeans | object/sync/bisync.go:323-444 | An action that has landed has settled its path so, whatever became of the others |
| BisyncMeaning.LoserIsOlder | object/sync/bisync.go:548-588 | What KeepBoth puts aside is the older version, on equal times that of side two |
| BisyncMeaning.WeightsMean | object/sync/bisync.go:355-441 | What a path adds to each counter: a copy if one side alone offers it, an update of the side that its strategy writes, and the bytes of what is written |
| BisyncMeaning.CountsMean | object/sync/bisync.go:325-441 | The counters count the one-sided files and the files written on each side |
| BisyncMeaning.UpdatesAreWrites | object/sync/bisync.go:428-441 | A side counted as updated ends with the bytes of the other, and under KeepBoth both sides end with both versions |
| BisyncCounts.TotalCounts | object/sync/bisync.go:325-361 | The counters are numbers of paths |
| BisyncOutcome.NothingLost | object/sync/bisync.go:548-588 | Under KeepBoth with free conflict paths, at every moment and after any failures, every initial file that is accepted, or not offered by the other side, is stored in full under its path or its conflict path |
| BisyncOutcome.WinnersNeverWritten | object/sync/bisync.go:497-546 | Under the four winning strategies a side is unchanged, at every moment, at each path where the times, sizes or the strategy make its version win; one version wins |
| BisyncOutcome.RejectedOverwritten | object/sync/bisync.go:290-298 | A file that the filter rejects is overwritten by the other side's accepted one |
| BisyncOutcome.CollisionOverwrites | object/sync/bisync.go:550-584 | A file in step under a conflict path survives if and only if it has the older version's bytes |
| BisyncOutcome.OutcomeDetermined | object/sync/bisync.go:267-298 | All orders of the actions end with the same files and bytes |
| BisyncOutcome.SidesAgreeAt | object/sync/bisync.go:497-588 | Afterwards both sides have every seen path and conflict path, with equal bytes wherever there was an action |
| BisyncOutcome.SamePaths | object/sync/bisync.go:267-298 | Without filter and directories both sides end with the same paths |
| BisyncOutcome.RerunChangesNothing | object/sync/bisync.go:497-546 | Under the winning strategies a second error-free run changes no bytes |
| BisyncOutcome.RerunKeepsSaved | object/sync/bisync.go:548-588 | Under KeepBoth, where no conflict path of the second run is itself to be copied, the saved version survives a second run if and only if the path is not in conflict again or both versions were equal |
| BisyncRerun.RerunBothAgain | object/sync/bisync.go:548-588 | Where the path and its saved copy are both in conflict again, the newer version ends under the path and its conflict path; the older one survives, under the conflict path of the latter, if and only if the saved copy happens to be handled first or both versions were equal |
| BisyncOutcome.ConflictRecurs | object/sync/options.go:269-293 | A merged path is in conflict again if and only if the times of the two copies count as different |
| BisyncOutcome.DryRunCounts | object/sync/bisync.go:428-441 | A dry run predicts the copies of a path always, and everything if and only if no conflict would be resolved by copying |
| CheckModel.Reader.ReadFull | object/sync/check.go:141-142 | A full buffer, or all that is left and how the stream ends, for any short reads |
| CheckModel.EqualChunks | object/sync/check.go:149-153 | The byte loop decides equality |
| CheckModel.CompareStreams | object/sync/check.go:120-174 | The chunk loop ends, and with the verdict on the two streams, for all lengths including multiples of the chunk and for all read failures |
| CheckModel.FaultsInVerdict | object/sync/check.go:155-172 | Equality is reported only of equal files; an error if and only if both sides fail after the same bytes; equal files are reported as different if and only if the failures differ |
| CheckModel.SoundVerdict | object/sync/check.go:124-134 | The same with files that may not open |
| Check.CompareContent | object/sync/check.go:120-174 | The verdict on what the two backends give for the path |
| Check.FilesMatch | object/sync/check.go:85-117 | Exactly the answer that size, hash and time tolerance give, or what can be read if they do not decide |
| Check.AnswerIsAlike | object/sync/check.go:85-117 | That answer is right whenever nothing fails that has to be read, and a match is never false |
| Check.AlikeIsEquality | object/sync/check.go:110-113 | With checksums on and no hashes stored, alike means equal bytes |
| Check.AlikeMeans | object/sync/check.go:85-117 | What two files are alike in: sizes and stored hashes; or bytes; or sizes and times up to a second |
| Check.Check | object/sync/check.go:21-82 | The five lists partition the union of both sides without duplicates, and each path is on the list that the answer on it says, whatever fails; there is no result exactly when a listing fails |
| Check.ListsAreExact | object/sync/check.go:44-79 | A path is on a list if and only if it belongs there |
| Check.MatchMeansEqualBytes | object/sync/check.go:110-113 | With checksums on and a hash missing, a common path that can be read is on the matching list if and only if its bytes are equal, and otherwise on the differing list |
| Check.ListsMean | object/sync/check.go:44-79 | Where nothing fails that has to be read, each offered file is on the list it belongs to and there are no errors |
| Check.OwnCopyMatches | object/sync/check.go:21-82 | A tree checked against itself is in sync under any options, with all its files matching |
| Check.HashesTell | object/sync/check.go:93-96 | With stored hashes that tell contents apart a common file is matching if and only if its bytes are equal, without reading it |
| Check.MatchIsNeverFalse | object/sync/check.go:69-70 | Whatever fails, what is on the matching list is alike |
| Check.InSyncMeans | object/sync/options.go:230-232 | InSync holds if and only if both sides have the same paths and each was found the same or could not be compared |
| RateLimit.TokenBucket.Refill | object/sync/ratelimit.go:129-140 | Floored refill, capped at the burst |
| RateLimit.TokenBucket.ReturnTokens | object/sync/ratelimit.go:113-125 | Returned tokens are capped at the burst |
| RateLimit.TokenBucket.WaitAlone | object/sync/ratelimit.go:80-110 | A lone wait within the bucket's size sleeps at most once, and not at all if the tokens are there; the tokens left and those taken are the tokens it found after the last refill |
| RateLimit.TokenBucket.ReadAlone | object/sync/ratelimit.go:29-53 | The bytes got and the tokens left are the tokens found after the last refill: a read uses up as many tokens as it gets bytes, and a short read returns the rest |
| RateLimit.SleepRefillsDeficit | object/sync/ratelimit.go:95-105 | The floored sleep refills the deficit if and only if the division is exact, and one more nanosecond always does |
| RateLimit.SleepTimeIsLeast | object/sync/ratelimit.go:95-98 | Any longer sleep refills the deficit, and any shorter one does not |
| RateLimit.RefillIsDue | object/sync/ratelimit.go:129-140 | A refill adds the rate times the elapsed time, short of one token, unless the bucket is full |
| RateLimit.StepKeepsInv | object/sync/ratelimit.go:80-125 | Every step of any reader keeps bytes delivered, held and in the bucket within the budget |
| RateLimit.BandwidthBound | object/sync/ratelimit.go:29-125 | In every run of any number of readers the tokens stay within the bucket and the bytes delivered within rate + rate * (t - t0) |
| RateLimit.NothingLeaks | object/sync/ratelimit.go:80-125 | No step loses tokens: what is in the bucket, held or delivered only grows, but for a return to a full bucket |
| RateLimit.WaitIsRun | object/sync/ratelimit.go:80-110 | A lone wait is a run of the steps: begin, and if it sleeps, tick and wake; so the bound covers it |
| RateLimit.ReadIsRun | object/sync/ratelimit.go:29-53 | So is a lone read, with its delivery and its return |
| RateLimit.LoneReadsBound | object/sync/ratelimit.go:29-125 | Over any sequence of lone reads the bytes got and the tokens left stay within the tokens at first and the refills |
| RateLimit.OversizedReadSleeps | object/sync/ratelimit.go:93-98 | A read larger than the bucket goes to sleep |
| RateLimit.OversizedReadNeverEnds | object/sync/ratelimit.go:93-106 | And sleeps in every state of every run from then on |
| ChannelStream.ChannelWriter.Write | object/backend/channel/backend.go:365-406 | Queues the message, or the right error after a close |
| ChannelStream.ChannelWriter.Close | object/backend/channel/backend.go:408-427 | Closes the channel once |
| ChannelStream.ChannelReader.Read | object/backend/channel/backend.go:442-483 | The rest of the current message first, then the next one, then EOF; bytes land at the front of the buffer |
| ChannelStream.StepKeepsInv | object/backend/channel/backend.go:365-483 | Every write, read, hand-off and close keeps the stream invariant |
| ChannelStream.EveryMessageToOneReader | object/backend/channel/backend.go:365-483 | In every interleaving each message sent is with exactly one reader or still queued, and each reader has the bytes of its messages in order |
| ChannelStream.SingleReaderStream | object/backend/channel/backend.go:442-483 | A single reader has a prefix of the bytes sent for any read sizes, and EOF only after the close and the last byte |
| ChannelStream.EofAfterOwnBytes | object/backend/channel/backend.go:442-483 | With several readers EOF means all messages are taken and the reader has all of its own |
| ChannelStream.ReadProgress | object/backend/channel/backend.go:442-483 | A read gives min(room, what is there) bytes of the rest in hand or else of the next message, and goes on right behind them |
| ChannelStream.ReadsGetThrough | object/backend/channel/backend.go:442-483 | Each read with room of a single reader uses up unread bytes or a message and loses none; EOF exactly when nothing is left |
| FanOut.Writer.NewWriter | object/multi/writer.go:108-149 | Succeeds if and only if enough of the backends open for the mode, with exactly those; otherwise all that opened is closed, which in write-all mode are those before the first that fails |
| FanOut.MultiWriteCloser.Write | object/multi/writer.go:168-208 | Success if and only if enough writers do not fail for the mode; exactly these take the chunk, up to the first failure in write-all mode; all writers agree while write-all succeeds, and in the other modes every writer that never failed holds everything |
| FanOut.MultiWriteCloser.WriteEach | object/multi/writer.go:182-195 | The others than the failing writers take the chunk and are counted; in write-all mode the first failure ends the round |
| FanOut.MultiWriteCloser.Close | object/multi/writer.go:211-231 | Closes all writers once |
| FanOut.OpeningMeans | object/multi/writer.go:108-149 | What opening asks of the backends: none fails in write-all mode, one does not in best-effort mode, more work than fail in quorum mode |
| FanOut.WritingMeans | object/multi/writer.go:168-208 | The same of a write, over the writers that opened |
| FanOut.QuorumsMeet | object/multi/writer.go:197-200 | Any two successful quorum writes share a writer that failed in neither |
| FanOut.QuorumVersusBackends | object/multi/writer.go:132-138 | On what NewWriter returned in quorum mode, every successful Write is taken by a majority of the backends if and only if the halves of the writers and of the backends are equal |
| FanOut.QuorumOfMinority | object/multi/writer.go:197-200 | Three of five backends open and one of the three fails: Write reports success, and only two backends hold the chunk |

## Left out

- SessionKvs.KvsStore.Create: backend failures, and errors of encoding and decoding, are not modelled; records are a datatype and the backend answers.
- SessionRefinement.KvsRefinesTable: covers runs in which nothing expires; expiry is the subject of SessionIndexTtl.
- SessionSites.SitesIndependent: sites of one store are those of wrappers over the in-memory store.
- SessionControl.ControlledStore.Create: serialization is a parameter, and violation reports are not modelled.
- SessionCap.CapUnderConcurrency: each operation of the wrapped store is atomic, as its lock makes it, and a listing is a full scan, which holds as long as no stored ID is created again for another user.
- BisyncOutcome.RerunKeepsSaved: leaves out second runs in which a conflict path is itself to be copied. BisyncRerun.RerunBothAgain treats the path and its own saved copy; runs in which conflict paths of other files collide as well are not followed to their end.
- KeyValue.KeyValueStore.List: the order of the keys.
- RateLimit.TokenBucket.ReadAlone: covers reads whose chunk fits the bucket, for the same reason as waits.
- RateLimit.TokenBucket.WaitAlone: covers waits that fit the bucket; larger ones do not end, as RateLimit.OversizedReadNeverEnds states. A missing bucket, which means no limit, is not modelled.
- ObjectMemory.Backend.List: the order of the answer; content types; cleaning and validation of paths beyond the empty path.
- SyncEngine.Sync: the two subtrees do not overlap, and a call is the only one that changes them while it runs.
- Bisync.Bisync: the text that describes a resolution, and the unused DeleteMissing option.
- CheckModel.CompareStreams: a reader that returns bytes together with an error in one call is taken to report the error in the next.
- Session fields the stores only carry along: organization, client address, user agent, free-form data.
- Concurrent runs of the key-value session store, whose index is read and rewritten without a lock.
- Persistent mode, deletion and broadcast of the channel backend.
- Backends that give no file sizes and times, and the SFTP, Dropbox, file, Redis and SQLite backends.
- Delays and jitter between retries; the bandwidth limit inside a copy, which does not change its bytes.
- File metadata carried by copies: content types and custom metadata.
- Patterns of the filter, timestamp tolerance, hashing, logging, progress and error texts.
- Compression, line-delimited JSON, and the single-file and directory helpers around Sync.
- Integers are unbounded; the sizes and counters of the source do not come near their limits.
