# Verification of the concurrency and crash-safety core

A Dafny model of the parts of `azure-functions-langgraph` that must be right under crashes, cancellation and
interleaving, with proofs of what they promise. Each method of the source that changes state is a method of a class
here, proved against a function of its state; the main results are lemmas about every run of those steps.

| Component | Files |
|---|---|
| Blob checkpoint saver: publication, reading, retention, garbage collection, pending writes, paths | `Checkpoints.dfy`, `CheckpointWorld.dfy`, `CheckpointSaver.dfy`, `CheckpointReader.dfy`, `Collector.dfy`, `PendingWrites.dfy`, `BlobPaths.dfy` |
| In-process lock | `InProcessLock.dfy` |
| Blob-lease lock, its renewal and its ownership guard | `LeaseLock.dfy`, `LeaseRuns.dfy`, `GuardVerdicts.dfy`, `GuardedWrites.dfy`, `RenewalTiming.dfy`, `GuardConfig.dfy` |
| Table thread store against the in-memory one, and its JSON columns | `ThreadStore.dfy`, `TableStore.dfy`, `TableRuns.dfy`, `TableJson.dfy` |
| Cancellation and streaming | `AsyncOwnership.dfy`, `GraphEvents.dfy`, `SseStream.dfy` |
| Indexed search | `IndexedSearch.dfy` |
| Strings, options, decimal text | `Common.dfy` |

`dafny verify dfyconfig.toml` checks everything.

## Environment

What the proofs take from the services and callers, and nothing more:

- One writer per checkpoint namespace, one put at a time. Its `put_writes` calls may overlap each other and the put in any
  way, except that no two work on the same blob at once; each write is a check and an upload, and may be stopped between
  them by a guard's rejection or a crash. A put begins with a fresh id and fresh versions, and its other versions come from
  a base checkpoint that stays committed while the put is in flight. During a call of the collector or of a reader no id
  is used a second time, and retention deletes a checkpoint marker first. Of this the hint results need
  only that puts do not overlap: they hold for deletions of any blob at any moment.
- Blob uploads, deletes, listings and reads, and Table reads and conditional writes, are single atomic steps. Listings
  of blobs are in path order, of rows in row-key order. Between any two steps of a call the
  other participants take any number of steps.
- A Table write gives its row an ETag never used before, and a conditional write succeeds only on the ETag it names
  (`If-Match`, section 13.1.1 of RFC 9110). Owner tokens are never minted twice.
- A lock that raises from `acquire` has granted nothing. Renewal takes only the wait between ticks and the bounded calls;
  times are in thirds of a second so that all bounds are whole numbers.
- Serialization is an abstract encode/decode pair. Strings compare by code point.

## Where code and documentation differ

- `collect_orphaned_values` says a grace period of 0 is safe only without concurrent writes. The per-victim hint read and
  re-scan make it safe with them, and with retention, for every grace period, under the assumptions above.
- The generator of `streaming.py` can send two error frames: the cap's own is sent inside the `try`, so an ordinary
  exception thrown into it by the consumer is taken for a failure of the graph. `TraceDiscipline` has the exact
  condition, `TwoErrorFrames` a stream.
- `_await_sync_worker` can let a worker's exception replace a cancellation delivered earlier; `SyncCancellation` says
  when, and `CancellationReplaced` gives a schedule.
- The indexed search orders two different creation times past 10^16 microseconds (the year 2286) the wrong way round.
- A stale reset leaves `lock_token` in place, so the old owner can still renew a thread that is no longer busy.
- Renewing a run lock whose row is missing raises the not-found error in the Table store and returns false in memory.
- A parent id of `""` reloads as no parent, and a clean hint with the empty id reads as no hint.

## Model

| member | source | states |
|---|---|---|
| `Checkpoints.ParseLatest` | src/azure_functions_langgraph/checkpointers/azure_blob.py:978-994 | A hint comes exactly from a version-1, non-dirty document with a non-empty id, and is that id. |
| `Checkpoints.Newest` | src/azure_functions_langgraph/checkpointers/azure_blob.py:929-949 | The authoritative scan finds a committed id no other exceeds, and none exactly when nothing is committed. |
| `Common.LeqExactly` | src/azure_functions_langgraph/checkpointers/azure_blob.py:935-949 | The order of ids, and of every other string here: a prefix first, otherwise by the first difference. |
| `Checkpoints.HintAgreesWithScan` | src/azure_functions_langgraph/checkpointers/azure_blob.py:294-318 | With a sound hint, reading through the hint and building the largest scanned id give the same result, for every container. |
| `Checkpoints.InvisibleBeforeMarker` | src/azure_functions_langgraph/checkpointers/azure_blob.py:397-427 | A put cut short at any point before its marker leaves the committed set unchanged and its own checkpoint absent. |
| `Checkpoints.CompleteAfterMarker` | src/azure_functions_langgraph/checkpointers/azure_blob.py:429-450 | From the marker on, the new checkpoint reloads as published, whatever was uploaded after it. |
| `Checkpoints.OthersUnchanged` | src/azure_functions_langgraph/checkpointers/azure_blob.py:389-450 | No prefix of a put's uploads changes how any other checkpoint reloads. |
| `Checkpoints.PutIsAtomic` | src/azure_functions_langgraph/checkpointers/azure_blob.py:389-450 | At every crash point the new checkpoint is either invisible or complete, the marker decides which, and every other checkpoint reloads exactly as before. |
| `Checkpoints.PublishedContents` | src/azure_functions_langgraph/checkpointers/azure_blob.py:819-880 | A complete put reads back every field: new channel values present, "empty" channels absent, inherited channels as before, parent id recovered (an empty one as none). |
| `Checkpoints.ReloadExactly` | src/azure_functions_langgraph/checkpointers/azure_blob.py:819-880 | From the blobs alone: when a reload finds nothing, when it raises, and each field of what it gives, every pending-write blob of the checkpoint included. |
| `CheckpointWorld.WriterFollowsPlan` | src/azure_functions_langgraph/checkpointers/azure_blob.py:397-450 | The step machine of the writer and the upload plan are one put: k steps store exactly the next k uploads. |
| `CheckpointWorld.WritesFollowCall` | src/azure_functions_langgraph/checkpointers/azure_blob.py:467-491 | Likewise for pending writes: the steps of one call, left alone, store exactly what the method `PutWrites` stores. |
| `CheckpointWorld.PutKeepsHint` | src/azure_functions_langgraph/checkpointers/azure_blob.py:389-450 | A put of any id, an older one included, stopped after any of its uploads, keeps a sound hint sound, so that asking for the latest still reads what the scan reads; a complete one leaves the hint naming the newest committed checkpoint. |
| `CheckpointWorld.MachineIsPut` | src/azure_functions_langgraph/checkpointers/azure_blob.py:392-450 | The machine left alone, from its first reading step to any upload, has the effect of the method `Put`, the current latest id that it looks up included. |
| `CheckpointWorld.FreshPutIsAllowed` | src/azure_functions_langgraph/checkpointers/azure_blob.py:375-450 | Every put of a fresh id with fresh versions, the others inherited from its base, is one that the orderly and the steady runs allow. |
| `CheckpointWorld.HintInvStep` | src/azure_functions_langgraph/checkpointers/azure_blob.py:389-491 | Each storage call of a put or of put_writes, each crash and each deletion of any blob keeps the hint invariant. |
| `CheckpointWorld.HintSoundAlways` | src/azure_functions_langgraph/checkpointers/azure_blob.py:392-491 | After any sequence of put and put_writes steps, crashes and deletions of any blobs, a clean hint names an id at least as large as every committed one, puts of older ids included. |
| `CheckpointWorld.GoodAlways` | src/azure_functions_langgraph/checkpointers/azure_blob.py:375-609 | Over every orderly run of puts, pending writes, crashes and retention deletes, each committed checkpoint keeps its metadata and every value it refers to, and an ordinary pending write once stored is never about to be overwritten. |
| `CheckpointWorld.DeadForever` | src/azure_functions_langgraph/checkpointers/azure_blob.py:389-450 | A used version that nothing committed or in flight names is referred to by no checkpoint committed at any later time. |
| `CheckpointWorld.DeletingDeadIsSafe` | src/azure_functions_langgraph/checkpointers/azure_blob.py:736-741 | Deleting such a value blob keeps every invariant and changes how no checkpoint reloads. |
| `CheckpointWorld.CleanHintMeansUnproduced` | src/azure_functions_langgraph/checkpointers/azure_blob.py:719-741 | A clean hint means no put is between its dirty and its clean upload, so none is bringing a used version; this is why the hint is read before the re-scan. |
| `CheckpointWorld.UnreferencedIsDead` | src/azure_functions_langgraph/checkpointers/azure_blob.py:719-741 | From then on a version is dead exactly when no committed checkpoint refers to it. |
| `CheckpointWorld.SteadyRunKeeps` | src/azure_functions_langgraph/checkpointers/azure_blob.py:375-609 | Any amount of writing and retention keeps the invariants and every used, dead or unproduced version; a finished checkpoint, as long as it is there, keeps its marker and metadata, while its pending writes only grow, ordinary ones unchanged; none comes back. The writer alone removes no marker, and neither removes a value. |
| `CheckpointWorld.KeptReloads` | src/azure_functions_langgraph/checkpointers/azure_blob.py:819-880 | A checkpoint committed at two moments reloads with the same id, versions, parent, values and metadata, whatever happened between; its pending writes are all still there, ordinary ones unchanged, with any stored since. |
| `CheckpointWorld.HintAgreesInEveryRun` | src/azure_functions_langgraph/checkpointers/azure_blob.py:280-318 | In every run from the empty namespace, pending writes included, whatever is deleted and wherever writing crashes, the hint is sound and asking for the latest reads what the scan reads. |
| `CheckpointWorld.CommittedLoadsInEveryRun` | src/azure_functions_langgraph/checkpointers/azure_blob.py:280-318 | In every orderly run from the empty namespace, pending writes included, each committed checkpoint loads, none of its pending writes fails to decode, and asking for the latest loads the newest, or nothing exactly when nothing is committed. |
| `CheckpointWorld.HintedWasNewest` | src/azure_functions_langgraph/checkpointers/azure_blob.py:294-306 | If the checkpoint a clean hint names is there at a later moment, it was the newest committed one when the hint was read. |
| `Collector.SharedNamespace.CollectRetainedVersions` | src/azure_functions_langgraph/checkpointers/azure_blob.py:748-774 | With the writer and retention running between any two reads, the survivor set contains every version referred to at the instant of the listing, and without retention at the scan's start; a vanished marker fails the scan. Undisturbed it is exact and fails exactly on an unreadable marker. |
| `Collector.SharedNamespace.RecheckAndDelete` | src/azure_functions_langgraph/checkpointers/azure_blob.py:719-741 | One victim: it is deleted only if it is dead at that instant, and every outcome keeps the invariants and what is committed; undisturbed, each outcome happens exactly when the source says. |
| `Collector.SharedNamespace.CollectOrphanedValues` | src/azure_functions_langgraph/checkpointers/azure_blob.py:679-743 | In every interleaving with retention and with a writer doing any number of puts, pending writes and crashes, no deleted blob is referred to by a checkpoint committed then or later, for every grace period including 0, every candidate is at least that old, what is younger or undated is deferred, and every checkpoint still committed reloads as before but for pending writes stored since; undisturbed, exactly the old orphans go, exactly the young ones are deferred, and an untrusted namespace is skipped. |
| `Collector.SharedNamespace.DeleteOrphans` | src/azure_functions_langgraph/checkpointers/azure_blob.py:718-741 | The deletion loop: everything deleted is dead, the world is otherwise kept; undisturbed, all candidates go. |
| `Collector.SafeForever` | src/azure_functions_langgraph/checkpointers/azure_blob.py:679-743 | What the loop keeps gives both promises: whatever is still committed reloads unchanged but for pending writes stored since, and no reference to a deleted blob after any further orderly run. |
| `Collector.Partition` | src/azure_functions_langgraph/checkpointers/azure_blob.py:704-713 | The candidates are exactly the unretained blobs whose stamp is not after the cutoff, each once; younger or undated ones are deferred. |
| `CheckpointSaver.AzureBlobCheckpointSaver.ListCheckpointIds` | src/azure_functions_langgraph/checkpointers/azure_blob.py:935-949 | Every committed id once, newest first. |
| `CheckpointSaver.AzureBlobCheckpointSaver.GetTuple` | src/azure_functions_langgraph/checkpointers/azure_blob.py:280-318 | Uninterrupted: a requested id is built directly; without one the result is the hint-or-scan read, which with a sound hint is the newest committed checkpoint. CheckpointReader.GetTuple has the interleaved call. |
| `CheckpointReader.BuildShared` | src/azure_functions_langgraph/checkpointers/azure_blob.py:819-927 | With the writer and retention running before each of its reads, a build gives what an uninterrupted one would have given at the instant the marker was read, with the pending writes listed and read later; it is absent instead only if the checkpoint was deleted meanwhile. |
| `CheckpointReader.GetTuple` | src/azure_functions_langgraph/checkpointers/azure_blob.py:280-318 | With the writer and retention running before each storage call, the result is the checkpoint that the authoritative read of the whole namespace chose at one instant of the call (without a requested id the newest committed one), as it was then, with the pending writes listed and read later; it is absent instead only if deleted by the end. |
| `CheckpointReader.ListedAreRead` | src/azure_functions_langgraph/checkpointers/azure_blob.py:882-927 | Of a checkpoint not deleted meanwhile every pending write listed is read, and those of ordinary indexes as they were when listed, although each is read by requests of its own. |
| `CheckpointReader.CompleteWithoutRetention` | src/azure_functions_langgraph/checkpointers/azure_blob.py:280-318 | Beside the writer alone the call reloads the chosen checkpoint completely, never absent for a deletion, with every pending write it had when it was chosen. |
| `CheckpointReader.EveryNamespaceIsReadable` | src/azure_functions_langgraph/checkpointers/azure_blob.py:375-609 | Every namespace grown from the empty one by puts, pending writes and retention meets the conditions of that call. |
| `CheckpointSaver.AzureBlobCheckpointSaver.Put` | src/azure_functions_langgraph/checkpointers/azure_blob.py:375-450 | However it ends (complete, guard rejection before any upload, crash), the container holds exactly the first `done` uploads of the plan, a sound hint stays sound, and after a complete put it names the newest committed checkpoint; a guard rejecting at once changes nothing. |
| `CheckpointSaver.AzureBlobCheckpointSaver.PutWrites` | src/azure_functions_langgraph/checkpointers/azure_blob.py:452-491 | The container holds the items handled so far under the first-or-last rule, for every missing id, rejection or crash; `PendingAfterCalls` says what that is in terms of the calls. |
| `CheckpointSaver.AzureBlobCheckpointSaver.DeleteThread` | src/azure_functions_langgraph/checkpointers/azure_blob.py:493-497 | Cut short anywhere it only removes blobs, each unchanged if kept, and keeps a sound hint sound; uncut it removes all. |
| `CheckpointSaver.AzureBlobCheckpointSaver.DeleteCheckpointBlobs` | src/azure_functions_langgraph/checkpointers/azure_blob.py:806-817 | Removes exactly one checkpoint's blobs, its marker first. |
| `CheckpointSaver.AzureBlobCheckpointSaver.DeleteCheckpointsBefore` | src/azure_functions_langgraph/checkpointers/azure_blob.py:499-556 | Of the committed ids exactly those not smaller stay, nothing of the others is left, and the count is how many went. |
| `CheckpointSaver.AzureBlobCheckpointSaver.DeleteOldCheckpoints` | src/azure_functions_langgraph/checkpointers/azure_blob.py:558-609 | As many checkpoints stay committed as asked for, every one of them newer than every removed one, and the removed are counted; a negative count is refused. |
| `CheckpointSaver.RetentionKeepsTheRest` | src/azure_functions_langgraph/checkpointers/azure_blob.py:558-609 | Retention leaves no blob of a removed checkpoint, and every other checkpoint's reload, all values and the hint as they were. |
| `CheckpointSaver.RetentionIsOrderly` | src/azure_functions_langgraph/checkpointers/azure_blob.py:806-817 | The marker-first order of deletion is a run that both orderly and steady runs allow, step by step. |
| `PendingWrites.PendingAfterCalls` | src/azure_functions_langgraph/checkpointers/azure_blob.py:467-491 | After any sequence of calls each key (task, index) holds channel, path and value of the first write of the task's calls with that index if it is ordinary, of the last if it is special, and nothing else is stored for the checkpoint. |
| `PendingWrites.RetryCompletes` | src/azure_functions_langgraph/checkpointers/azure_blob.py:467-491 | Repeating a call that stopped anywhere gives what one uninterrupted call would have given. |
| `PendingWrites.RepeatChangesNothingIff` | src/azure_functions_langgraph/checkpointers/azure_blob.py:467-491 | A repeated call changes nothing exactly when the last value of each special index is the stored one. |
| `PendingWrites.LoadIsDetermined` | src/azure_functions_langgraph/checkpointers/azure_blob.py:882-927 | For every container there is exactly one list that is sorted by (path, task, index) and holds exactly the stored writes. |
| `PendingWrites.LoadedAfterCalls` | src/azure_functions_langgraph/checkpointers/azure_blob.py:467-491 | After any sequence of calls, loading does not fail and gives, sorted by path, task and index, exactly those writes of the calls that are the first with an ordinary index or the last with a special one, each with its own channel, value, task and path. |
| `PendingWrites.ReloadedWritesLoad` | src/azure_functions_langgraph/checkpointers/azure_blob.py:875-927 | The writes that come with a reloaded checkpoint are loaded exactly as those in the container. |
| `PendingWrites.LoadPendingWrites` | src/azure_functions_langgraph/checkpointers/azure_blob.py:882-927 | Loading returns that list, skips untyped blobs, and fails exactly when some write blob cannot be decoded. |
| `BlobPaths.UnquoteQuote` | src/azure_functions_langgraph/checkpointers/azure_blob.py:1136-1137 | Percent-encoding (sections 2.1 and 2.3 of RFC 3986) is undone by decoding, on every byte string. |
| `BlobPaths.QuoteOfByte` | src/azure_functions_langgraph/checkpointers/azure_blob.py:1136-1137 | Letters, digits and "-._~" stay; any other byte is "%" and two upper-case hexadecimal digits. |
| `BlobPaths.QuoteAdds` | src/azure_functions_langgraph/checkpointers/azure_blob.py:1136-1137 | A segment is encoded byte by byte. |
| `BlobPaths.RenderInjective` | src/azure_functions_langgraph/checkpointers/azure_blob.py:1061-1117 | Different blobs never share a path, whatever bytes their segments hold. |
| `BlobPaths.ThreadPrefixExact` | src/azure_functions_langgraph/checkpointers/azure_blob.py:1061-1062 | A thread's prefix matches exactly that thread's blobs. |
| `BlobPaths.NamespacePrefixExact` | src/azure_functions_langgraph/checkpointers/azure_blob.py:1064-1068 | A namespace's prefix matches exactly its blobs; its values and checkpoints prefixes split them. |
| `BlobPaths.CheckpointPrefixExact` | src/azure_functions_langgraph/checkpointers/azure_blob.py:1070-1102 | A checkpoint's prefix matches exactly its marker, metadata and pending writes, its writes prefix exactly the last. |
| `BlobPaths.ListingRecoversIds` | src/azure_functions_langgraph/checkpointers/azure_blob.py:935-949 | The id listing picks exactly its namespace's markers and recovers their ids. |
| `BlobPaths.ValuePathRoundTrip` | src/azure_functions_langgraph/checkpointers/azure_blob.py:792-804 | The value-path parser inverts the builder and rejects every other blob of the saver. |
| `BlobPaths.WritePathRoundTrip` | src/azure_functions_langgraph/checkpointers/azure_blob.py:882-927 | The pending-write path gives back task id and index, the index parsed as an integer, and no other blob does. |
| `BlobPaths.MarkerListedFirst` | src/azure_functions_langgraph/checkpointers/azure_blob.py:806-817 | In path order a checkpoint's marker precedes its metadata, which precedes its pending writes. |
| `BlobPaths.PathsExactly` | src/azure_functions_langgraph/checkpointers/azure_blob.py:1061-1117 | The path of every kind of blob, segment by segment. |
| `BlobPaths.JoinAdds` | src/azure_functions_langgraph/checkpointers/azure_blob.py:1061-1117 | Segments are joined by "/". |
| `GuardedWrites.LeaseGuardSettles` | src/azure_functions_langgraph/locks/azure_blob.py:621-644 | In every run of the lock, and however its checks fall in it, the verdicts of one guard are passes followed by rejections only. |
| `GuardedWrites.RunWrites` | src/azure_functions_langgraph/checkpointers/azure_blob.py:383-491 | A caller that goes on with puts and pending writes after a rejection, crashes included, each check being a new one, uploads nothing more; this rests on the guard rejecting for good. |
| `InProcessLock.InProcessThreadLock.ReserveSection` | src/azure_functions_langgraph/locks/inprocess.py:72-80 | First section of acquire: the registry becomes the one with a reference more, creating the state only if absent. |
| `InProcessLock.InProcessThreadLock.UnreserveSection` | src/azure_functions_langgraph/locks/inprocess.py:85-89 | Failed acquire: the reference is dropped and an unused entry removed. |
| `InProcessLock.InProcessThreadLock.Release` | src/azure_functions_langgraph/locks/inprocess.py:95-134 | A matching release unlocks, forgets the token, drops the reference and collects an unused entry; any other changes nothing. |
| `InProcessLock.InProcessThreadLock.Acquire` | src/azure_functions_langgraph/locks/inprocess.py:66-93 | Undisturbed: a token exactly if the key is free, and then the state is locked under that token with one reference more; a refused call leaves the registry as it was. |
| `InProcessLock.MutualExclusion` | src/azure_functions_langgraph/locks/inprocess.py:66-134 | Any number of threads and keys in any interleaving of the sections: at most one unreleased token per key. |
| `InProcessLock.PublishingFindsNoOwner` | src/azure_functions_langgraph/locks/inprocess.py:90-93 | When a call publishes its token no other token of the key is unreleased. |
| `InProcessLock.AcquireUndisturbed` | src/azure_functions_langgraph/locks/inprocess.py:66-93 | In the interleaved system too, a call left alone on an unused key gets the lock. |
| `InProcessLock.ReleaseUndisturbed` | src/azure_functions_langgraph/locks/inprocess.py:95-134 | And the release by the last participant frees the key and leaves no entry. |
| `InProcessLock.OneStatePerKey` | src/azure_functions_langgraph/locks/inprocess.py:31-54 | No two live state objects serve one key. |
| `InProcessLock.RefsAreExact` | src/azure_functions_langgraph/locks/inprocess.py:12-28 | `refs` is the number of calls in flight plus one for the owner. |
| `InProcessLock.StaleReleaseIsNoOp` | src/azure_functions_langgraph/locks/inprocess.py:95-134 | A release whose token is not the key's live one changes nothing. |
| `InProcessLock.EntryIffParticipants` | src/azure_functions_langgraph/locks/inprocess.py:56-64 | The entry exists exactly while some call is in flight or some token unreleased. |
| `LeaseLock.LostExactlyWhenFatal` | src/azure_functions_langgraph/locks/azure_blob.py:714-766 | For every history of renewals a lease is marked lost exactly if one of them was a definitive error or three in a row were transient failures. |
| `LeaseLock.DefinitiveExactly` | src/azure_functions_langgraph/locks/azure_blob.py:817-844 | Which errors end a lease at once (the four codes or a 412), that a timeout or a 409 without such a code does not, and that such an error is no conflict only if it is a 412 without a lease code. |
| `LeaseLock.CaseIsIgnored` | src/azure_functions_langgraph/locks/azure_blob.py:817-844 | Error codes that differ in letter case alone are classified alike, by both classifiers. |
| `LeaseLock.ConflictExactly` | src/azure_functions_langgraph/locks/azure_blob.py:817-844 | A failed request for a lease is repeated or given up exactly for a 409 or a lease code, and raised otherwise. |
| `LeaseLock.AzureBlobLeaseThreadLock.OwnershipProblem` | src/azure_functions_langgraph/locks/azure_blob.py:621-644 | No problem is reported exactly for a tracked, not lost token on an open lock; which reason is reported otherwise. |
| `LeaseLock.AzureBlobLeaseThreadLock.Register` | src/azure_functions_langgraph/locks/azure_blob.py:511-549 | A lease is registered only under a free key of an open lock, otherwise given back once; taken key and closed lock are told apart. |
| `LeaseLock.AzureBlobLeaseThreadLock.Release` | src/azure_functions_langgraph/locks/azure_blob.py:551-599 | Only the owner's entry goes; its lease is given back once unless known to be lost. |
| `LeaseLock.AzureBlobLeaseThreadLock.HandleRenewal` | src/azure_functions_langgraph/locks/azure_blob.py:714-766 | Only the same, still tracked state is changed, by the classification of the outcome. |
| `LeaseLock.AzureBlobLeaseThreadLock.RenewAllOnce` | src/azure_functions_langgraph/locks/azure_blob.py:646-712 | Every lease not yet lost gets the classified outcome of its own call applied once; lost ones are left alone. |
| `LeaseLock.AzureBlobLeaseThreadLock.Close` | src/azure_functions_langgraph/locks/azure_blob.py:773-809 | Terminal and idempotent: every entry goes, each lease is given back once unless lost. |
| `LeaseRuns.LeasesAreConserved` | src/azure_functions_langgraph/locks/azure_blob.py:467-599 | In every interleaving of acquire, release, renewal and close each lease obtained is tracked under one key, in one call's hands, given exactly one release attempt, or dropped as lost, and never two of these. |
| `LeaseRuns.RegistrationFindsKeyFree` | src/azure_functions_langgraph/locks/azure_blob.py:511-549 | A key with an entry, lost or not, is never reacquired before the entry is removed. |
| `LeaseRuns.EntryLeavesOnlyByOwner` | src/azure_functions_langgraph/locks/azure_blob.py:551-599 | An entry leaves the map only by its own token's release or by close. |
| `LeaseRuns.NothingAfterDrain` | src/azure_functions_langgraph/locks/azure_blob.py:773-809 | Once close has cleared the map nothing is ever registered again. |
| `LeaseRuns.AcquireUndisturbed` | src/azure_functions_langgraph/locks/azure_blob.py:467-549 | The sections of an undisturbed acquisition together register the lease under a fresh record, nothing else changing. |
| `LeaseRuns.SurplusUndisturbed` | src/azure_functions_langgraph/locks/azure_blob.py:511-549 | A lease granted under a taken key, or to a lock closed meanwhile, is given back by one attempt. |
| `LeaseRuns.ReleaseUndisturbed` | src/azure_functions_langgraph/locks/azure_blob.py:551-599 | The owner's release removes its entry and gives the lease back once, unless it is lost. |
| `LeaseRuns.CloseUndisturbed` | src/azure_functions_langgraph/locks/azure_blob.py:773-809 | A close takes every entry away at once and has exactly their leases to give back. |
| `LeaseRuns.RenewalUndisturbed` | src/azure_functions_langgraph/locks/azure_blob.py:714-766 | The outcome of a renewal touches the record of its own lease only. |
| `GuardVerdicts.RejectionMeans` | src/azure_functions_langgraph/locks/azure_blob.py:621-644 | A check whose three reads fall anywhere in a run rejects exactly if it saw the lock closed, the lease untracked, or the lease lost. |
| `GuardVerdicts.RejectionIsPermanent` | src/azure_functions_langgraph/locks/azure_blob.py:621-644 | Once a guard has rejected its token it rejects at every later check, whatever the lock does. |
| `GuardVerdicts.OwnerIsNeverRejected` | src/azure_functions_langgraph/locks/azure_blob.py:621-644 | The easy direction: no check rejects a token that is tracked, not lost and on an open lock throughout it. |
| `GuardVerdicts.PassesExactlyWhileOwned` | src/azure_functions_langgraph/locks/azure_blob.py:621-644 | At one instant it passes exactly while owned. |
| `GuardVerdicts.VerdictsNeverRecover` | src/azure_functions_langgraph/locks/guard.py:294-297 | The sequence of verdicts never goes back from rejection to pass. |
| `RenewalTiming.RenewalWorker` | src/azure_functions_langgraph/locks/azure_blob.py:768-771 | The rounds are the watched ones, a lease registered after a snapshot waiting for the next, and with calls bounded by the interval every timing bound holds at their end. |
| `RenewalTiming.RenewalBounds` | src/azure_functions_langgraph/locks/azure_blob.py:114-128 | For every mix of outcomes: lost at most 7d/3 after registration or the last successful tick's start, so at most 4d/3 past service expiry; by the transient path never sooner than d after a recorded renewal nor 2d/3 after acquisition. |
| `RenewalTiming.AllFailingIsLost` | src/azure_functions_langgraph/locks/azure_blob.py:646-766 | With every renewal failing the loss does come, within 7d/3 of registration. |
| `RenewalTiming.UpperBoundIsReached` | src/azure_functions_langgraph/locks/azure_blob.py:422-427 | The upper bound is tight to one unit. |
| `RenewalTiming.LowerBoundIsReached` | src/azure_functions_langgraph/locks/azure_blob.py:422-427 | The lower bound is reached. |
| `GuardConfig.InjectedGuardIsResolved` | src/azure_functions_langgraph/locks/guard.py:215-253 | A checkpoint write resolves the injected guard, or none, whatever a client put under the key; a bound guard wins. |
| `GuardConfig.OnlyGuardKeyTouched` | src/azure_functions_langgraph/locks/guard.py:218-253 | A helper fact: everything else in the configuration is kept, and no stray value survives at either level. |
| `GuardConfig.InjectionIsIdempotent` | src/azure_functions_langgraph/locks/guard.py:225-236 | A helper fact: injecting twice is injecting once; with nothing to remove or inject the configuration is unchanged. |
| `GuardConfig.RunIsGuardedByItsLock` | src/azure_functions_langgraph/locks/guard.py:178-324 | The run's writes and its final check use the same guard, the one its lock gave, present exactly when a provider returned one for a real token. |
| `ThreadStore.AcquireReleaseRoundTrip` | src/azure_functions_langgraph/platform/stores.py:266-328 | A check of the reference dictionary: acquiring then releasing frees the thread for the received token, any other leaves it held. |
| `ThreadStore.UpdateGives` | src/azure_functions_langgraph/platform/stores.py:226-257 | Field by field, an update stamps the row and replaces exactly the fields given; it never touches the lock. |
| `ThreadStore.AcquireGives` | src/azure_functions_langgraph/platform/stores.py:266-299 | When exactly a thread is acquired, in which order it is refused, and field by field what the holder's row is: busy, stamped, under the new token for a minute. |
| `ThreadStore.ReleaseGives` | src/azure_functions_langgraph/platform/stores.py:301-328 | When exactly a release acts, and field by field what it leaves: the given status and values, no lock. |
| `ThreadStore.RenewGives` | src/azure_functions_langgraph/platform/stores.py:330-340 | Only the current token renews, and only the stamp and the expiry move. |
| `ThreadStore.InMemoryThreadStore.UpdateThread` | src/azure_functions_langgraph/platform/stores.py:226-257 | The locked dictionary's update, whole new state and reply. |
| `ThreadStore.InMemoryThreadStore.TryAcquireRunLock` | src/azure_functions_langgraph/platform/stores.py:266-299 | Its acquire: missing, bound elsewhere, busy or granted, in that order. |
| `ThreadStore.InMemoryThreadStore.ReleaseRunLock` | src/azure_functions_langgraph/platform/stores.py:301-328 | Its release, a stale owner token ignored. |
| `ThreadStore.InMemoryThreadStore.RenewRunLock` | src/azure_functions_langgraph/platform/stores.py:330-340 | Its renewal, only for the current token. |
| `TableStore.SeenEvolves` | src/azure_functions_langgraph/stores/azure_table.py:358-405 | Whatever other clients do, a row either is the one that was there or carries an ETag never used before. |
| `TableStore.AzureTableThreadStore.UpdateThread` | src/azure_functions_langgraph/stores/azure_table.py:358-405 | Refinement: a write has, at its compare-and-swap instant, the dictionary's effect; any other reply is the dictionary's own at the instant of the read, except three proved conflicts or a thread that does not fit. |
| `TableStore.AzureTableThreadStore.TryAcquireRunLock` | src/azure_functions_langgraph/stores/azure_table.py:417-511 | The same refinement for acquire, whatever other clients do before each request. |
| `TableStore.AzureTableThreadStore.ReleaseRunLock` | src/azure_functions_langgraph/stores/azure_table.py:513-590 | The same refinement for release. |
| `TableStore.AzureTableThreadStore.RenewRunLock` | src/azure_functions_langgraph/stores/azure_table.py:592-615 | True is the dictionary's renewal at the write; false is its refusal at the read or a conflict; the not-found error comes exactly from a missing row, where the dictionary would say false. |
| `TableStore.AzureTableThreadStore.ResetRow` | src/azure_functions_langgraph/stores/azure_table.py:692-721 | One row: it is reset only if it is still the row queried, hence stale at the write. |
| `TableStore.AzureTableThreadStore.ResetStaleLocks` | src/azure_functions_langgraph/stores/azure_table.py:654-723 | Every reset hits a row busy and older than asked for at the instant of its write, and the count is exactly the number of resets; undisturbed, exactly the stale rows are reset; a negative age or another status is refused. |
| `TableRuns.RequestRefinesDictionary` | src/azure_functions_langgraph/stores/azure_table.py:358-615 | Any number of clients interleaved request by request: each request changes nothing or does exactly what the dictionary would do at that instant. |
| `TableRuns.UndisturbedCallIsAtomic` | src/azure_functions_langgraph/stores/azure_table.py:358-721 | A call that nobody disturbs has exactly the dictionary's effect, refusals included; a stale reset frees the row exactly if it is busy and last stamped before the cutoff. |
| `TableRuns.OldTokensAreFenced` | src/azure_functions_langgraph/stores/azure_table.py:513-615 | After a newer acquisition no release or renewal with an older token changes the row, even one that read it earlier. |
| `TableRuns.AcquisitionsAreSeparated` | src/azure_functions_langgraph/stores/azure_table.py:417-511 | Between two acquisitions of a thread there is a release, a stale reset or a status-setting update. |
| `TableRuns.ResetHitsOnlyStaleRows` | src/azure_functions_langgraph/stores/azure_table.py:654-721 | A reset writes only onto a row that is busy and was last stamped before the cutoff at the instant of the write. |
| `TableRuns.FreshLockIsNeverReset` | src/azure_functions_langgraph/stores/azure_table.py:417-721 | A lock taken or renewed at or after the cutoff is never reset: the last accepted write before an accepted reset, whatever it was, was made before that reset's cutoff, even if the reset's query is older than the write. |
| `TableRuns.ResetLeavesTokenRenewable` | src/azure_functions_langgraph/stores/azure_table.py:692-705 | A reset leaves the token in place: the old owner's renewal still succeeds until the next acquisition. |
| `TableJson.WriteJson` | src/azure_functions_langgraph/stores/_table_json.py:28-40 | The field's properties are exactly those of the new text, no chunk of an older one is left, and no other property is touched. |
| `TableJson.HeldShort` | src/azure_functions_langgraph/stores/_table_json.py:28-40 | What is written of a short text: one property and no other of the field. |
| `TableJson.HeldHeader` | src/azure_functions_langgraph/stores/_table_json.py:28-40 | What is written of a long text: the format, and the number of its chunks. |
| `TableJson.HeldChunk` | src/azure_functions_langgraph/stores/_table_json.py:28-40 | Each chunk is the text's own stretch of 32768 characters, the last one the rest. |
| `TableJson.NothingElseHeld` | src/azure_functions_langgraph/stores/_table_json.py:28-40 | No other property of the field is left. |
| `TableJson.ReadsBack` | src/azure_functions_langgraph/stores/_table_json.py:43-53 | A held text reads back as itself exactly when it takes at most 65536 bytes or has at most 252 chunks; otherwise its count is refused. |
| `TableJson.ReadExactly` | src/azure_functions_langgraph/stores/_table_json.py:43-53 | What reading finds in any entity: legacy text, nothing, or why the chunked form is refused, booleans counting as integers. |
| `TableJson.MissingChunkIsNotRead` | src/azure_functions_langgraph/stores/_table_json.py:43-53 | A chunked text with a chunk missing, or one that is no text, is not read. |
| `TableJson.OtherFieldStillHolds` | src/azure_functions_langgraph/stores/_table_json.py:28-40 | Writing one field keeps what another field holds. |
| `TableJson.LastWriteWins` | src/azure_functions_langgraph/stores/_table_json.py:28-53 | After any sequence of writes of the store's fields each holds and reads its last text, and an unwritten one reads what it read before. |
| `TableJson.ValidateEntity` | src/azure_functions_langgraph/stores/_table_json.py:56-82 | Accepts exactly the entities whose properties are each within 65536 bytes, at most 254 in number and within a mebibyte in total with the reserve, in whatever order they are visited. |
| `TableJson.TotalAdds` | src/azure_functions_langgraph/stores/_table_json.py:56-82 | What each property adds to the total: its name, 32 bytes, and its value's size. |
| `TableJson.Utf16Adds` | src/azure_functions_langgraph/stores/_table_json.py:56-82 | Sizes are those of UTF-16: two bytes for a character of the basic plane, four for another. |
| `TableJson.AcceptedMeansReadable` | src/azure_functions_langgraph/stores/_table_json.py:43-82 | In an accepted entity a field has at most 16 chunks, so the reader never rejects its count and finds the text. |
| `AsyncOwnership.AwaitShielded` | src/azure_functions_langgraph/locks/_async.py:35-44 | The waiting loop ends at the first wake-up after the worker's end, knowing every cancellation up to then, for any schedule. |
| `AsyncOwnership.ConcludesMeans` | src/azure_functions_langgraph/locks/_async.py:35-44 | When a waiting caller goes on, in terms of the schedule alone: the first wake-up after the worker's first end. |
| `AsyncOwnership.RunSyncRetainingOwnership` | src/azure_functions_langgraph/locks/_async.py:18-62 | The call ends only after its worker: fatally if the worker does, otherwise with any cancellation that came before the caller resumed, otherwise as the worker; for every schedule. |
| `AsyncOwnership.CancellationWaitsForWorker` | src/azure_functions_langgraph/locks/_async.py:38-62 | Any number of cancellations at any time before the call resumes: all of them wait for the worker, and the call raises. |
| `AsyncOwnership.AcquireEndsAs` | src/azure_functions_langgraph/locks/_async.py:87-146 | How an acquisition ends, for every schedule and outcome: a token got by a cancelled caller is given back first, and a failing release wins over the cancellation. |
| `AsyncOwnership.LockedEndsAs` | src/azure_functions_langgraph/locks/_async.py:149-163 | How a whole `async_thread_lock` ends: as its body, the first worker that does not return normally or else the last, unless its release fails or is cancelled. |
| `AsyncOwnership.Holder.ReleaseThreadLock` | src/azure_functions_langgraph/locks/_async.py:65-84 | One release attempt whatever the cancellations; its own error wins over them. |
| `AsyncOwnership.Holder.AcquireThreadLock` | src/azure_functions_langgraph/locks/_async.py:87-146 | The token is handed to the caller, or released by exactly one attempt before anything is raised. |
| `AsyncOwnership.Holder.AsyncThreadLock` | src/azure_functions_langgraph/locks/_async.py:149-163 | Every worker of the body starts and ends between the acquisition and the one release attempt, and how the whole ends is determined. |
| `AsyncOwnership.WorkersNeverOverlap` | src/azure_functions_langgraph/locks/_async.py:18-163 | Any number of callers, cancelled at any time: a worker executes only while its caller's token owns the lock, so no two workers overlap. |
| `AsyncOwnership.CallerFollowsLoop` | src/azure_functions_langgraph/locks/_async.py:35-62 | A caller's waiting loop, under any schedule, is a run of the many-caller machine, which lets it go on with the outcome and the cancellations the loop itself has. |
| `AsyncOwnership.AcquireIsMachine` | src/azure_functions_langgraph/locks/_async.py:87-146 | So is a whole acquisition with the release of an unwanted token, and it leaves its caller as the method says. |
| `AsyncOwnership.BracketIsMachine` | src/azure_functions_langgraph/locks/_async.py:149-163 | So is a whole `async_thread_lock`: acquisition, the workers of its body up to the first that fails or is cancelled, and the one release attempt, ending as the method says; the laws of the machine therefore hold of it. |
| `AsyncOwnership.EveryTokenReleasedOnce` | src/azure_functions_langgraph/locks/_async.py:87-163 | Every token the lock ever gave has at most one release attempt, and none exactly while its caller still has it. |
| `GraphEvents.AwaitSyncWorker` | src/azure_functions_langgraph/streaming.py:270-286 | The wait ends as `SyncEndsAs` says. |
| `GraphEvents.SyncEndsAs` | src/azure_functions_langgraph/streaming.py:270-286 | For every schedule: fatally or with its error if the worker fails, unless a further cancellation wakes the caller; with a delivered cancellation if there was one; otherwise with the worker's own value. |
| `GraphEvents.SyncCancellation` | src/azure_functions_langgraph/streaming.py:272-286 | A delivered cancellation is raised exactly unless the worker fails and its own exception wakes the caller. |
| `GraphEvents.CancellationReplaced` | src/azure_functions_langgraph/streaming.py:270-286 | A schedule in which a delivered cancellation is replaced by the worker's exception, where the lock's own helper raises the cancellation. |
| `GraphEvents.IterateSync` | src/azure_functions_langgraph/streaming.py:316-329 | At most one worker touches the iterator at a time, items are passed on in order, close runs once, last, after the last `next` has ended, and how the generator ends is determined, an error of close winning. |
| `GraphEvents.IterationExactly` | src/azure_functions_langgraph/streaming.py:316-329 | The items are those of the first pulls, in order, up to the consumer's break or the first pull that gives none, and that decides how the loop ends. |
| `GraphEvents.EndingExactly` | src/azure_functions_langgraph/streaming.py:316-329 | An error of the iterator's close wins over what ended the loop; otherwise the loop's own end is the generator's. |
| `SseStream.RunBody` | src/azure_functions_langgraph/streaming.py:394-426 | The generator's frames, recorded error and escaping exception, for every source and consumer. |
| `SseStream.CleanUp` | src/azure_functions_langgraph/streaming.py:427-466 | Close, one release attempt if there is a token, one observer event with the first error; and which exception escapes. |
| `SseStream.SseEventStream` | src/azure_functions_langgraph/streaming.py:384-468 | The whole trace and the escaping exception. |
| `SseStream.TraceDiscipline` | src/azure_functions_langgraph/streaming.py:384-468 | At most the capped number of data frames in order, error frames, close, release attempt, one observer event, end frame only if nothing escapes; at most one error frame except when the consumer throws an ordinary exception into the cap's own, and then two. |
| `SseStream.TwoErrorFrames` | src/azure_functions_langgraph/streaming.py:394-423 | A stream that does send two error frames: the consumer throws into the cap's. |
| `SseStream.StreamEndsAs` | src/azure_functions_langgraph/streaming.py:394-426 | For every stream, which error ends it after its accepted events: the guard's, the next event's, the cap's or the consumer's. |
| `SseStream.PrimeRefused` | src/azure_functions_langgraph/streaming.py:394-426 | If the consumer throws into the priming frame, that is the error. |
| `SseStream.StreamSends` | src/azure_functions_langgraph/streaming.py:394-426 | And which frames it sent: one for each accepted event, then those of the event, cap or consumer that ends it. |
| `SseStream.DataFramesAre` | src/azure_functions_langgraph/streaming.py:394-426 | Those frames carry the events in their order. |
| `SseStream.StreamRaisesAs` | src/azure_functions_langgraph/streaming.py:412-426 | An ordinary error goes into a frame and only what the consumer throws in there is raised; any other error is raised itself. |
| `SseStream.ObservedIsFirstError` | src/azure_functions_langgraph/streaming.py:427-466 | The observer is told the stream's error, or else the close's, or else the release's. |
| `SseStream.EscapesInOrder` | src/azure_functions_langgraph/streaming.py:427-466 | Which exception escapes: a cancellation of the stream, of close, of release, in this order; then what a failed stream still raises; then a fatal error of close; then any error of release. |
| `SseStream.CompletedIff` | src/azure_functions_langgraph/streaming.py:461-466 | "Completed" is reported exactly when every event was sent, nothing failed and the guard check passed. |
| `SseStream.CancellationPropagates` | src/azure_functions_langgraph/streaming.py:412-460 | A cancellation or generator exit in the stream, in close or in release is never lost and never invented. |
| `SseStream.EndFrameIff` | src/azure_functions_langgraph/streaming.py:431-468 | The end frame is sent exactly when no handler and no cleanup step had to raise. |
| `IndexedSearch.KeyOrder` | tools/benchmark_table_store.py:410-412 | The key order is newest first, ties by id, for every pair of rows except two different times past 10^16 microseconds, where it is reversed. |
| `IndexedSearch.KeyExactly` | tools/benchmark_table_store.py:410-412 | The key of a row is its time left to 10^16 microseconds in 20 characters, an underscore and its id. |
| `IndexedSearch.FitsMeans` | tools/benchmark_table_store.py:410-412 | For which times the key has room, as a range of microseconds. |
| `IndexedSearch.BuildIndex` | tools/benchmark_table_store.py:415-424 | Each status lists exactly its rows in key order; an unknown status is an error. |
| `IndexedSearch.IndexedSearch` | tools/benchmark_table_store.py:426-439 | The early-terminating walk returns the requested page and reads min(rows, offset + limit) entities for a positive limit, none otherwise. |
| `IndexedSearch.Search` | src/azure_functions_langgraph/stores/azure_table.py:725-741 | With any status and metadata filter, the scan, stable sort and slice return the requested page of exactly the matching rows, newest first and then by id; negative arguments are refused. |
| `IndexedSearch.OrdersAgreeIff` | tools/benchmark_table_store.py:410-424 | The index order is the scan order exactly when no two times of the status past the horizon differ. |
| `IndexedSearch.SearchesAgreeIff` | tools/benchmark_table_store.py:426-439 | Every page of both searches is equal exactly under that condition. |

## Left out

- The asynchronous twins of the checkpoint saver (`aput`, `aget_tuple` and the rest): the same protocol over another client.
- `list`/`alist` of checkpoints with filters, and the sweep over several namespaces in retention and collection: path isolation (`NamespacePrefixExact`) makes one namespace enough.
- Collection during a read: `CheckpointReader` has the writer and retention running between a reader's storage calls, not the deletion of values.
- The type of a serialized value: when a special pending write is replaced between the two requests that read it, `CheckpointReader.ReadWrite` takes the earlier value with the later properties, and a payload decoded under another type is not captured.
- Blob names the saver did not write: the parsers are shown exact on the saver's own blobs only; foreign non-ASCII names, and index texts that only Python's `int` accepts, are not modelled.
- `WRITES_IDX_MAP` belongs to LangGraph: it is a parameter that maps special channels to negative indices.
- Serialization internals (`serde`, JSON text syntax, pydantic) and the randomness of tokens and versions.
- Azure SDK calls, credentials, HTTP routing and responses, logging, and blob names of locks.
- TableStore.AzureTableThreadStore.TryAcquireRunLock: its reply separates "busy" from three conflicts, which the source both reports as `None`.
- Rows that a reset's query returns without a stamp or an ETag: the source skips them, and here every row has both.
- Create, delete, get and count of the thread stores: single requests without a protocol.
- Waiting with a timeout in `acquire` of both locks: a call may give up at any moment, so how long it polls is not captured.
- Marker-blob creation of the lease lock, its executor and the renewal thread's start: only their effect on leases is modelled.
- RenewalTiming.RenewalBounds: scheduling delay of threads and the time of local computation are not captured.
- Other fields of `_LeaseState` that are only reported (`last_error`) and the guard's choice of reason after the first rejection.
- `bind_ownership_guard`: setting and resetting a context variable; its bound guard is a parameter of `ResolveOwnershipGuard`.
- The asynchronous branch of `_aiter_graph_events`: it has no worker threads to keep apart.
- A generator closed before its first step runs none of its body, so it releases nothing; that is what priming is for, and SseStream.dfy starts with the first step.
- A caller of `async_thread_lock` that runs workers although it got no token: callers refuse the request then.
- Platform run and thread handlers, native handlers, Service Bus, Durable, observability, validation, contracts, the Cosmos, Postgres and SQLite helpers, and the other tools: branch plumbing, or true but easy members.
- Float effects in `index_row_key`: times are whole microseconds.
