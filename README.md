# girder_wt_data_manager: a Dafny model of the cache core

The Whole Tale data manager is a Girder plugin. It keeps local copies of
Girder items in a private storage directory, so that running Tales can read
them as plain files. This project models the data manager's core in Dafny
and proves properties of the model. The core has these parts:

- **Cache-state store** (`lock.dfy`, `lock_traces.dfy`). Each item carries a
  `dm` sub-document with these fields: `lockCount`, `cached`,
  `transferInProgress`, `deleteInProgress`, `psPath`, `lastUnlocked`,
  `downloadCount` and the transfer owner. Next to the items is a table of
  lock records.
  - Every store operation is one atomic conditional update.
  - Absent fields follow MongoDB's rules: `$ne: True` matches a missing
    field, `{lockCount: 0}` does not, and `$inc` starts from 0.
  - `LockModel` applies these updates to its state one step at a time.
  - `LockTraces` proves three properties over arbitrary sequences of steps:
    single-flight transfers, the deletion guard and pin accounting.
- **Garbage collection** (`file_gc.dfy`, `psinfo.dfy`). The collector runs:
  1. the fractional threshold test;
  2. the candidate sum;
  3. a stable ascending sort by the LRU key;
  4. the delete loop, which stops early once the stop test holds.

  `deleteFile` wraps each deletion in a reservation that is always released.
  The usage counter is a single optional record.
- **Transfers** (`tm_utils.dfy`, `transfer_run.dfy`, `copy_loop.dfy`,
  `handler_factory.dfy`, `transfer_model.dfy`, `transfer_manager.dfy`):
  - the progress throttle;
  - the INITIALIZING → DONE/FAILED status lifecycle;
  - the 32 KiB copy loop and the Girder download loop;
  - dispatch on the URL scheme;
  - the transfer record table;
  - the restart list built at start-up;
  - the choice of source URL.
- **Event routing** (`cache_manager.dfy`). `SimpleCacheManager` forwards
  events to the transfer manager, the collector and the lock store.
- **Pure helpers**:
  - the sharded cache path (`path_mapper.dfy`);
  - sessions, meaning ownership, ancestry, mount-path resolution,
    `splitPath` and the `getObject` walk (`session.dfy`);
  - the folder-to-dataSet flattening (`folder_dataset.dfy`);
  - the size-and-unit parser of the test HTTP server
    (`fake_data_server.dfy`).

**How the model is written**
- Girder and MongoDB are modelled as maps.
- Lookups into folders, items, users and assetstores are parameters.
- The local disk is a class holding a map from paths to byte sequences
  (`file_system.dfy`).
- Lock and transfer ids come from counters. They stand in for fresh
  ObjectIds.
- Timestamps are integers, with the epoch as the smallest value.
- Configuration fractions are `real`.
- Exceptions are `Result` errors named after the Python exception classes.
- Where the code does something other than what the surrounding prose or
  comments suggest, the model follows the code:
  - `sizeUsed` returns the capacity;
  - the LRU key is a flat `'dm.lastUnlocked'` lookup, so stored documents
    always sort at the epoch;
  - `unlock` can drive the lock count below zero;
  - a failed transfer never clears `transferInProgress`;
  - an `os.remove` error propagates out of `collect`.

## Model

| member | source | states |
|---|---|---|
| PathMapper.GetPSPath | wt_data_manager/server/lib/path_mapper.py:8-11 | The path is root, '/', the first id character, '/', the second, '/', then the whole id; an id shorter than 2 characters raises IndexError |
| PathMapper.PSPathInjective | wt_data_manager/server/lib/path_mapper.py:11 | Under one root, two ids with the same cache path are equal |
| Locks.IncrementLockCount | server/models/lock.py:93-99 | Matches iff the item exists and `deleteInProgress` is not True (absent counts as not True); then `lockCount` grows by 1 from 0 when absent; otherwise nothing changes; only that item's `dm` can change |
| Locks.TryLockUpdate | server/models/lock.py:133-149 | Matches iff `transferInProgress` and `cached` are both not True; then it sets `transferInProgress` and the transfer user and session, and nothing else |
| Locks.TryLockForDeletionUpdate | server/models/lock.py:103-112 | Matches iff `deleteInProgress` is not True and `lockCount` is present and 0 (`cached` is not consulted); then it sets `deleteInProgress` |
| Locks.UnlockForDeletionUpdate | server/models/lock.py:114-118 | Sets `deleteInProgress` to False on any existing item |
| Locks.EvictUpdate | server/models/lock.py:120-131 | Sets only `cached` to False |
| Locks.FileDeletedUpdate | server/models/lock.py:179-186 | Clears `cached` and `deleteInProgress` and removes `psPath` |
| Locks.FileDownloadedUpdate | server/models/lock.py:188-207 | Sets `cached` and `psPath`, clears `transferInProgress`, removes the transfer owner fields and adds exactly 1 to `downloadCount` |
| Locks.UnlockUpdate | server/models/lock.py:161-174 | Subtracts 1 from `lockCount` (from 0 when absent) and stamps `lastUnlocked` on every call; returns whether the new count is 0; a missing item is a TypeError and changes nothing |
| Locks.RemoveLockRecord | server/models/lock.py:158-159 | Exactly the records with another id remain |
| Locks.CountPins | server/models/lock.py:65-74 | The number of pins on an item is the number of times the item occurs among the lock records' items |
| Locks.LockModel.ListLocks | server/models/lock.py:36-44 | Exactly the user's records, narrowed by session, item and owner when each is given |
| Locks.LockModel.WaitForPendingDeleteAttempt | server/models/lock.py:84-101 | One attempt of the increment: the store becomes `IncrementLockCount`'s result and `done` reports whether it matched; lock records are unchanged |
| Locks.LockModel.TryLock | server/models/lock.py:133-149 | The store becomes `TryLockUpdate`'s result, and the method returns whether it matched |
| Locks.LockModel.AcquireLock | server/models/lock.py:46-82 | Saves one record {userId, sessionId, itemId, ownerId defaulting to the session}. It then applies the increment and, if that matched, `tryLock`. The status reports whether `tryLock` matched, which is when `dm.itemLocked` fires, and the record is returned either way |
| Locks.LockModel.TryLockForDeletion | server/models/lock.py:103-112 | The store becomes `TryLockForDeletionUpdate`'s result, and the method returns whether it matched |
| Locks.LockModel.UnlockForDeletion | server/models/lock.py:114-118 | The store becomes `UnlockForDeletionUpdate`'s result |
| Locks.LockModel.Evict | server/models/lock.py:120-131 | The store becomes `EvictUpdate`'s result |
| Locks.LockModel.Unlock | server/models/lock.py:161-174 | The store and the result are those of `UnlockUpdate` |
| Locks.LockModel.ReleaseLock | server/models/lock.py:151-159 | Removes the record, then unlocks; the result (whether `dm.itemUnlocked` fires) is whether the count reached 0 |
| Locks.LockModel.RemovePreservesIds | server/models/lock.py:158-159 | Removing a record keeps the record ids distinct and below the id counter |
| Locks.LockModel.FileDeleted | server/models/lock.py:179-186 | The store becomes `FileDeletedUpdate`'s result |
| Locks.LockModel.FileDownloaded | server/models/lock.py:188-207 | The store becomes `FileDownloadedUpdate`'s result |
| Locks.LockModel.FindItems | server/models/lock.py:209-216 | Every item satisfying the query, once each, with its current document |
| Locks.LockModel.ListDownloadingItems | server/models/lock.py:209-210 | Exactly the items whose `transferInProgress` is True, once each |
| Locks.LockModel.GetCollectionCandidates | server/models/lock.py:212-216 | Exactly the items with `cached` True and `lockCount` 0, once each |
| Locks.LockModel.DownloadItem | server/models/lock.py:218-234 | A missing item raises ValueError (iff it is missing); an absent `cached` raises KeyError; a False `cached` raises ValueError; a cached item yields the stream over its `psPath`, or KeyError when `psPath` is absent. The file is not opened here |
| Locks.Stream | server/models/lock.py:226-232 | Reading the stream raises OSError iff the file is not on disk at read time; otherwise the chunks concatenate to the file, each holds between 1 and 65536 bytes, and every chunk but the last is full |
| LockTraces.StateKeepsKeys | server/models/lock.py:93-207 | No store update adds or removes an item |
| LockTraces.StepsKeepTopLevel | server/models/lock.py:93-207 | No store update changes an item's size or its fields outside `dm` |
| LockTraces.TransferFlagPersists | server/models/lock.py:133-149 | Once set, `transferInProgress` stays True until a `fileDownloaded` on that item |
| LockTraces.SingleFlight | server/models/lock.py:133-149 | After a matched `tryLock` on an item, no later `tryLock` on it matches before a `fileDownloaded` |
| LockTraces.DeletionFlagPersists | server/models/lock.py:103-118 | Once set, `deleteInProgress` stays True until `unlockForDeletion` or `fileDeleted` on that item |
| LockTraces.DeletionExcludesPinning | server/models/lock.py:93-112 | While a deletion reservation is held, neither the lock-count increment nor a second reservation matches |
| LockTraces.CountPinsAppend | server/models/lock.py:65-74 | Saving a lock record adds one pin to its item and none to other items |
| LockTraces.CountPinsRemove | server/models/lock.py:158-159 | Removing a held record takes exactly one pin off its item |
| LockTraces.RemoveAbsent | server/models/lock.py:158-159 | Removing an id that no record has changes nothing |
| LockTraces.AcquireKeepsPinCount | server/models/lock.py:65-82 | When the lock count equals the number of records on the item, a matched acquire keeps it equal |
| LockTraces.ReleaseKeepsPinCount | server/models/lock.py:151-174 | Likewise, a release keeps the lock count equal to the number of records |
| LockTraces.TwoLockCyclesDownloadOnce | server/models/lock.py:46-207 | Two lock, download and release cycles on a fresh item: only the first `tryLock` wins; at the end `downloadCount` is 1, `lockCount` is 0 and the item is cached |
| LockTraces.UnlockBelowZero | server/models/lock.py:161-174 | Unlocking at count 0 gives -1, stamps `lastUnlocked` and returns false |
| PsInfo.UpdatedRecord | server/models/psinfo.py:15-16 | An update sets `used` on an existing record and creates none |
| PsInfo.NeverCreated | server/models/psinfo.py:15-16 | A store without a usage record never gets one, whatever the updates |
| PsInfo.PSInfo.UpdateInfo | server/models/psinfo.py:15-16 | The record becomes `UpdatedRecord` of the old one |
| PsInfo.PSInfo.GetInfo | server/models/psinfo.py:18-24 | `used` is the stored value, or 0 when there is no record; `capacity` is the setting |
| PsInfo.PSInfo.TotalSize | server/models/psinfo.py:26-27 | Equals the capacity setting |
| PsInfo.PSInfo.SizeUsed | server/models/psinfo.py:29-30 | Equals `totalSize`, not the stored `used` |
| PsInfo.SizeUsedIgnoresRecord | server/models/psinfo.py:29-30 | Two stores with any usage records report the same `sizeUsed` |
| FileSystem.Disk.Remove | server/lib/file_gc.py:25 | `os.remove`: a missing path raises OSError and changes nothing; otherwise exactly that path is gone |
| FileSystem.Disk.Truncate | server/lib/handlers/common.py:27 | Opening for writing leaves the file present and empty |
| FileSystem.Disk.Append | server/lib/handlers/common.py:39 | A write puts the bytes at the end of that file only |
| FileGc.StopIsMonotone | server/lib/file_gc.py:154-155 | Once the stop test holds, collecting more keeps it holding |
| FileGc.WiredShouldCollect | server/lib/file_gc.py:97-99 | As wired, the start test compares the capacity with itself, so it holds iff the capacity is positive and the start fraction is below 1, whatever the stored usage |
| FileGc.ItemSortKey | server/lib/file_gc.py:176-181 | The key is the value under the flat top-level key 'dm.lastUnlocked', or the epoch when that key is absent |
| FileGc.EpochSortsFirst | server/lib/file_gc.py:12 | A document without the key sorts no later than any other |
| FileGc.Insert | server/lib/file_gc.py:107-108 | Inserting keeps all elements and adds exactly one |
| FileGc.SortByKey | server/lib/file_gc.py:107-108 | The sort result is a permutation of the candidates |
| FileGc.InsertSorted | server/lib/file_gc.py:107-108 | Inserting into a sorted list keeps it sorted |
| FileGc.InsertWithKey | server/lib/file_gc.py:107-108 | Inserting puts the new element first among elements with an equal key |
| FileGc.SortByKeySorted | server/lib/file_gc.py:107-108 | Sorted candidates have non-decreasing keys |
| FileGc.SortByKeyStable | server/lib/file_gc.py:107-108 | The sort is stable: equal keys keep their original order |
| FileGc.FlatKeySortIsIdentity | server/lib/file_gc.py:107-108 | Without the flat key, sorting leaves the stored order as it is |
| FileGc.SumSizesSnoc | server/lib/file_gc.py:80-82 | Each candidate adds its size to `used` |
| FileGc.SumSizesInsert | server/lib/file_gc.py:80-82 | Inserting a candidate adds its size to the sum |
| FileGc.SumSizesSorted | server/lib/file_gc.py:80-84 | Sorting does not change the candidates' total size |
| FileGc.DeleteFileSpec | server/lib/file_gc.py:21-31 | A failed reservation returns False and changes nothing. After a reservation: a successful remove marks the item deleted and returns True; a failed remove propagates OSError; either way `deleteInProgress` ends False. Only that item's `dm` changes |
| FileGc.DeleteSparesPinned | server/lib/file_gc.py:21-31 | A deletion never changes a pinned item (lock count not 0) and never removes its file |
| FileGc.Sweep | server/lib/file_gc.py:86-95 | With no candidates left, the sweep ends as it stands (Exhausted) |
| FileGc.SweepExtends | server/lib/file_gc.py:86-95 | The sweep only appends to the list of deleted candidates, and only candidates it was given |
| FileGc.SweepCollects | server/lib/file_gc.py:86-89 | `collected` is always the total size of the deleted candidates, and grows by at most the candidates' total |
| FileGc.SweepStopsAtFirst | server/lib/file_gc.py:86-93 | A sweep that stops does so at the first deletion after which the stop test holds: the test holds for `collected`, the new usage is `used - collected`, and the test failed after every earlier deletion |
| FileGc.SweepNeverStopped | server/lib/file_gc.py:86-95 | A sweep that runs out of candidates or aborts never reached the stop test: it failed after every deletion made |
| FileGc.SweepSparesPinned | server/lib/file_gc.py:86-95 | The whole sweep never touches a pinned item or its file |
| FileGc.AfterSweep | server/lib/file_gc.py:86-95 | The usage record becomes the sweep's new usage iff the sweep reached the stop test, which is also when the result is True; an aborted sweep's error is the result; the state and the deleted candidates are the sweep's |
| FileGc.CollectSpec | server/lib/file_gc.py:72-95 | When the start test fails nothing is deleted, the record is unchanged and the result is False |
| FileGc.CollectDeletesCandidates | server/lib/file_gc.py:79-95 | Only candidates are deleted, and they hold at most the candidates' total size |
| FileGc.CollectStopsAtFirst | server/lib/file_gc.py:78-93 | When the stop test was reached, something was deleted, the usage record becomes the total size minus the sizes of the deleted candidates, and the test failed after every earlier deletion, so no more was deleted than needed |
| FileGc.CollectNeverStopped | server/lib/file_gc.py:78-95 | When the stop test was not reached, the usage record is unchanged and the test failed after every deletion made |
| FileGc.CollectAsWritten | server/lib/file_gc.py:78-108 | As written: once the start test holds, sorting the cursor raises TypeError (iff the start test holds), and nothing is deleted or recorded; when it does not hold, the result is the corrected one |
| FileGc.CursorSortBlocksCollection | server/lib/file_gc.py:84-108 | On the two-object case the code as written raises TypeError and deletes nothing, while the corrected collect deletes the first object |
| FileGc.PeriodicFileGC.DeleteFile | server/lib/file_gc.py:21-31 | The store, the disk and the result are those of `DeleteFileSpec`; lock records are unchanged |
| FileGc.PeriodicFileGC.Collect | server/lib/file_gc.py:72-95 | The store, disk, usage record and result are those of `CollectSpec` over the candidate listing |
| FileGc.PeriodicFileGC.DeleteInOrder | server/lib/file_gc.py:86-95 | The delete loop ends in the state and with the outcome of `Sweep` |
| FileGc.TwoObjectsOneEvicted | server/lib/file_gc.py:72-95 | Capacity 22, two unpinned cached items of size 10, fractions 0.5: exactly the first is deleted, the sweep stops, the usage record becomes 10, and the second item and its file are untouched |
| TmUtils.ThrottleRun | server/lib/tm_utils.py:53-58 | After a run, `lastTransferred` is the last count sent (or unchanged when none was sent); each sent update is at least 1 MiB past the previous one |
| TmUtils.ThrottleStep | server/lib/tm_utils.py:53-58 | One more count appends one update exactly when it passes the test |
| TmUtils.ThrottleSendsOnlyPassing | server/lib/tm_utils.py:53-55 | Every sent count passed both thresholds against the previous sent count |
| TmUtils.ThrottleEmitsFromInput | server/lib/tm_utils.py:57 | Only counts that were given are ever sent |
| TmUtils.FractionalTestInIntegers | server/lib/tm_utils.py:55 | `delta >= size * 0.001` holds iff `1000 * delta >= size` |
| TmUtils.ThrottleCoversQuota | server/lib/tm_utils.py:53-55 | A thousand times the distance covered is at least the number of updates times the size |
| TmUtils.AtMostThousandUpdates | server/lib/tm_utils.py:49-55 | For counts within a positive size, starting at 0: at most 1000 updates, and at most size / 1 MiB of them |
| TmUtils.TransferHandler.constructor | server/lib/tm_utils.py:16-24 | A new handler starts with `flen` 0 and `lastTransferred` 0 |
| TmUtils.TransferHandler.UpdateTransferProgress | server/lib/tm_utils.py:48-58 | Sends (size, transferred) and records `transferred` iff the delta is at least 1 MiB and at least size × 0.001; otherwise nothing changes |
| TmUtils.TransferHandler.ReportFollowingRun | server/lib/tm_utils.py:48-58 | One call in a copy loop extends the throttle run by that count |
| TmUtils.TransferHandler.IsManaged | server/lib/tm_utils.py:60-68 | The base handler is not managed |
| TmUtils.SentUpdates | server/lib/tm_utils.py:57 | Each update carries total = size and current = the count sent |
| TmUtils.GetFileFromItem | server/lib/tm_utils.py:26-31 | Succeeds iff the item has exactly one file, and then returns it; otherwise raises "Wrong number of files for item <id>: <n>" |
| TmUtils.TransferException.IsFatal | server/lib/tm_utils.py:83-84 | Returns the stored flag |
| TmUtils.FatalByDefault | server/lib/tm_utils.py:71-75 | An exception is fatal unless built with `fatal=False` |
| TransferRun.RunSpec | wt_data_manager/server/lib/tm_utils.py:29-40 | The status ends DONE with size = transferred = `flen` and an end time, or FAILED with the message and an end time; only that record changes; `dm.fileDownloaded` with (itemId, psPath) fires iff the transfer completed |
| TransferRun.StatusTransferHandler.constructor | wt_data_manager/server/lib/tm_utils.py:21-27 | A new handler starts with `flen` 0 and `lastTransferred` 0 |
| TransferRun.StatusTransferHandler.Run | wt_data_manager/server/lib/tm_utils.py:29-40 | The transfer table and the event are those of `RunSpec`; a failure is caught, and no item state is written |
| TransferRun.StatusTransferHandler.TransferDone | wt_data_manager/server/lib/tm_utils.py:45-46 | The event carries the handler's itemId and psPath |
| TransferRun.StatusTransferHandler.UpdateTransferProgress | wt_data_manager/server/lib/tm_utils.py:48-59 | Writes TRANSFERRING with the given size and count iff the throttle test passes, then records the count; otherwise nothing changes |
| UrlHandlers.FileLength | server/lib/handlers/common.py:6-9 | `flen` is the `size` of the item's single file; a wrong file count raises, and a missing `size` raises KeyError |
| UrlHandlers.ReadTotals | server/lib/handlers/common.py:33-41 | The running counts of the copy: empty for an empty input, and the last count is the input length |
| UrlHandlers.ReadTotalsAreBufferSteps | server/lib/handlers/common.py:19-36 | Every count but the last is one full 32768-byte buffer past the previous one, so n bytes take ceil(n / 32768) reads |
| UrlHandlers.ReadTotalsWithin | server/lib/handlers/common.py:40 | Every running count lies within the file |
| UrlHandlers.ReadTotalsStep | server/lib/handlers/common.py:36-40 | One read advances the count by a full buffer, or to the end |
| UrlHandlers.CopyReportsWithinFile | server/lib/handlers/common.py:40-41 | Every count reported while copying is positive and at most the input length |
| UrlHandlers.InputStream.Read | server/lib/handlers/common.py:36 | `read(n)` returns the next at most n bytes and consumes exactly those |
| UrlHandlers.FileLikeUrlTransferHandler.Transfer | server/lib/handlers/common.py:24-28 | Reports (`flen`, 0) unthrottled, then empties the cache file. The cache file ends equal to the input, with the throttled running counts reported; when the input cannot be opened the error propagates and the file stays empty |
| UrlHandlers.FileLikeUrlTransferHandler.TransferBytes | server/lib/handlers/common.py:33-41 | The cache file gains exactly the input, in order, and the updates sent are the throttle's run over the per-read running counts |
| UrlHandlers.FileLikeUrlTransferHandler.Write | server/lib/handlers/common.py:39 | A write appends the next bytes of the input |
| HandlerFactory.HandlerTable | server/lib/handler_factory.py:9-14 | The table names exactly `local`, `http` and `file`, and `file` maps to the same handler as `local` |
| HandlerFactory.FindFrom | server/lib/handler_factory.py:19 | `str.find` from an index: the first occurrence at or after it, or -1 |
| HandlerFactory.Find | server/lib/handler_factory.py:19 | -1 iff the pattern never occurs; otherwise its first occurrence |
| HandlerFactory.NewTransferHandler | server/lib/handler_factory.py:26-29 | Succeeds iff the name is in the table, building that handler with the arguments; otherwise raises ValueError 'No such handler: "<name>"' |
| HandlerFactory.GetURLTransferHandler | server/lib/handler_factory.py:16-24 | A None or empty URL raises ValueError; a built handler carries the URL, transfer id, item id and path |
| HandlerFactory.NoSchemeIsLocal | server/lib/handler_factory.py:19-21 | A URL without "://" goes to the local handler |
| HandlerFactory.SchemeBeforeFirstSeparator | server/lib/handler_factory.py:22-24 | Otherwise the scheme is the text before the first "://" |
| HandlerFactory.HttpScheme | server/lib/handler_factory.py:13-24 | `http://` URLs go to the HTTP handler |
| HandlerFactory.FileScheme | server/lib/handler_factory.py:14-24 | `file://` URLs go to the local handler |
| HandlerFactory.HttpsUnsupported | server/lib/handler_factory.py:27-28 | `https://` URLs raise ValueError 'No such handler: "https"' |
| HandlerFactory.LettersHaveNoSeparator | server/lib/handler_factory.py:22-23 | A scheme of lower-case letters has no "://" inside it |
| Transfers.FindRequest | server/models/transfer.py:24-25 | The first record with the same (itemId, ownerId, sessionId), or none iff no record matches |
| Transfers.CreateTransferSpec | server/models/transfer.py:23-54 | Reuses the id of the existing record for the request, or takes a fresh one. The saved record is QUEUED with no error, size 0, transferred 0 and the resolved path. A path error is re-raised; any error other than KeyError writes nothing |
| Transfers.CreateTransferKeyErrorRemoves | server/models/transfer.py:32-38 | When the item path raises KeyError, no record for the request remains and all other records stay |
| Transfers.CreateTransferKeepsWellFormed | server/models/transfer.py:23-54 | Ids stay unique and at most one record exists per request |
| Transfers.WithStatus | server/models/transfer.py:60-84 | Status, error, size and transferred are always overwritten; start and end times are stamped only when their flag is set; the other fields are kept |
| Transfers.SetStatusSpec | server/models/transfer.py:60-84 | Only the record with the id changes |
| Transfers.FinishedRecordAges | server/models/transfer.py:107-124 | A record stamped with an end time at t is listed by default up to one minute later, and not after that |
| Transfers.StampedEndTimeNeverListed | server/models/transfer.py:78-122 | As the store evaluates the filter (a timestamp compared with a date), a record stamped with an end time is never listed by default, although the intended filter lists it at that time |
| Transfers.TransferModel.CreateTransfer | server/models/transfer.py:23-54 | The table and the result are those of `CreateTransferSpec` |
| Transfers.TransferModel.SetStatus | server/models/transfer.py:60-84 | The table becomes `SetStatusSpec`'s result |
| Transfers.TransferModel.ListAll | server/models/transfer.py:92-94 | The records that pass the time filter (no end time, or an end time at most one minute old, or no filter when `discardOld` is false) |
| Transfers.TransferModel.ListAllForUser | server/models/transfer.py:96-99 | The same, restricted to the user's records |
| Transfers.TransferModel.ListAllForSession | server/models/transfer.py:101-105 | The same, restricted to the user's records for the session |
| Transfers.TransferModel.List | server/models/transfer.py:86-90 | Filters by owner, and also by session when one is given |
| Transfers.CreatedRecordIsListed | server/models/transfer.py:39-124 | A just-saved record has no end time, so its owner's listings include it |
| TransferManager.ItemEntry | server/lib/transfer_manager.py:89-95 | An in-progress item gives (id, `dm.transfer.userId`, `dm.transfer.sessionId`); a missing field raises KeyError |
| TransferManager.ItemEntries | server/lib/transfer_manager.py:89-95 | One entry per in-progress item, in order; the first failing item fails the whole list with KeyError |
| TransferManager.Unclaimed | server/lib/transfer_manager.py:96-98 | Exactly the transfer records whose item is not among the in-progress items |
| TransferManager.RestartList | server/lib/transfer_manager.py:86-98 | Every in-progress item first, in order, then every transfer record whose item is not among them |
| TransferManager.RestartListNoDuplicateItem | server/lib/transfer_manager.py:89-98 | An in-progress item never appears again through the transfer records |
| TransferManager.SourceUrl | server/lib/transfer_manager.py:143-155 | `linkUrl`, else `path` when imported, else the assetstore's full path, with lookup errors giving no URL |
| TransferManager.ChooseHandler | server/lib/transfer_manager.py:156-163 | A non-empty URL needs a `size` (else ValueError) and goes to the factory; no URL gives a Girder download handler |
| TransferManager.GetTransferHandler | server/lib/transfer_manager.py:134-163 | Raises unless the item has exactly one file; a chosen handler is for the given transfer id and the item's cache path |
| TransferManager.StartTransferSpec | server/lib/transfer_manager.py:124-132 | Creates or reuses the QUEUED record and starts one handler, for that record's id; on an error no handler is started |
| TransferManager.GetUser | server/lib/transfer_manager.py:109-110 | The user iff it exists |
| TransferManager.RestartSpec | server/lib/transfer_manager.py:100-107 | Each entry is attempted in order; the handlers started earlier are kept, and failures are counted, not raised |
| TransferManager.RestartAttemptsEveryEntry | server/lib/transfer_manager.py:100-107 | Entry k is attempted from the state the earlier entries left, whether or not they failed, and it is logged as failed iff its start fails |
| TransferManager.MissingOwnerSkipped | server/lib/transfer_manager.py:102-107 | An entry whose owner no longer exists is logged and changes nothing |
| TransferManager.SimpleTransferManager.StartTransfer | server/lib/transfer_manager.py:124-132 | The table, the started handlers and the result are those of `StartTransferSpec` |
| TransferManager.SimpleTransferManager.RestartEntries | server/lib/transfer_manager.py:86-98 | The list-building loops produce `RestartList` |
| TransferManager.SimpleTransferManager.Restart | server/lib/transfer_manager.py:100-107 | The restart loop's state and failure log are those of `RestartSpec` |
| TransferManager.SimpleTransferManager.RestartOne | server/lib/transfer_manager.py:101-107 | One entry: the state is that of `StartTransferSpec`, and the item is logged as failed iff the start raised |
| TransferManager.SimpleTransferManager.RestartInterruptedTransfers | server/lib/transfer_manager.py:80-107 | Restarts from a listing of the in-progress items and the recent transfer records; when the list cannot be built, nothing changes |
| TransferManager.ItemEntriesStopAtError | server/lib/transfer_manager.py:89-95 | The first failing item's KeyError is the error of the whole list |
| TransferManager.RunningTotalsAreLengths | server/lib/transfer_manager.py:50-55 | After each chunk, `crt` is the length of all chunks written so far |
| TransferManager.RunningTotalsMonotone | server/lib/transfer_manager.py:50-55 | The running totals never decrease, and the last is the total size |
| TransferManager.GirderDownloadHandler.Transfer | server/lib/transfer_manager.py:33-48 | Raises unless the item has one file. Otherwise it marks the record TRANSFERRING with a start time, and the cache file ends equal to the chunks in order |
| TransferManager.GirderDownloadHandler.TransferBytes | server/lib/transfer_manager.py:50-55 | The cache file gains the chunks in order, and the updates sent are the throttle's run over the running totals |
| CacheManager.SimpleCacheManager.ItemLocked | server/lib/cache_manager.py:35-38 | Forwards (user, itemId, sessionId) unchanged: the state and result are those of `startTransfer` |
| CacheManager.SimpleCacheManager.ItemUnlocked | server/lib/cache_manager.py:40-43 | Notifies the collector, and no state changes |
| CacheManager.SimpleCacheManager.FileDownloaded | server/lib/cache_manager.py:45-46 | Forwards the info: the store becomes `FileDownloadedUpdate`'s result |
| CacheManager.SimpleCacheManager.SessionEvent | server/lib/cache_manager.py:48-54 | `sessionCreated` and `sessionDeleted` change nothing |
| CacheManager.SimpleCacheManager.ClearCache | server/lib/cache_manager.py:27-28 | Forwarding `force` to a collector without `clearCache` raises AttributeError |
| Sessions.NewSession | server/models/session.py:57-67 | Owned by the creator at seq 0; with a tale, the dataSet is its `involatileData` and `taleId` is the tale's id; otherwise the dataSet is the argument and there is no tale |
| Sessions.CheckOwnership | server/models/session.py:114-123 | Passes iff the user is an admin or is the owner (`ownerId`, else `userId`); a missing owner is KeyError; otherwise AccessException |
| Sessions.OnlyCreatorOrAdminOwns | server/models/session.py:57-123 | A fresh session may be modified exactly by its creator and by admins |
| Sessions.SessionModel.CreateSession | server/models/session.py:43-74 | Saves `NewSession` under a fresh id |
| Sessions.SessionModel.ModifySession | server/models/session.py:76-100 | Fails exactly when the ownership check does, and then changes nothing; otherwise adds exactly 1 to seq and replaces the dataSet |
| Sessions.SessionModel.DeleteSession | server/models/session.py:170-173 | After the ownership check, removes exactly that session |
| Sessions.ContainsIffAncestorInSet | server/models/session.py:144-168 | The walk is true iff the id or an ancestor on its parent chain is in the set; a None id gives false |
| Sessions.IdSet | server/models/session.py:139-141 | The ids of the dataSet entries |
| Sessions.ContainsItem | server/models/session.py:125-142 | A session without a dataSet raises; otherwise true iff the object or one of its ancestors is mounted |
| Sessions.Slashed | server/models/session.py:201-202 | The mount path with a '/' appended unless it already ends in one |
| Sessions.FirstStop | server/models/session.py:197-206 | The first entry that matches, or whose empty mount path raises |
| Sessions.FindRoot | server/models/session.py:196-207 | The first matching entry wins, giving its id and the tail (None for an exact match); no match raises LookupError |
| Sessions.TailRebuildsPath | server/models/session.py:203-206 | The slashed mount path followed by the tail is the path |
| Sessions.NoPartialNameMatch | server/models/session.py:201-205 | A mount at "/name" does not serve "/nameAndStuff" |
| Sessions.ExactMountFirst | server/models/session.py:199-200 | An exact match on the first entry gives (None, its id) |
| Sessions.LoadObject | server/models/session.py:209-219 | A folder with the id if there is one, else an item, else LookupError |
| Sessions.FindRootContainer | server/models/session.py:196-207 | The scan's result, with the root object loaded |
| Sessions.FindObjectInFolder | server/models/session.py:226-239 | A child folder with the name is preferred to a child item; neither raises LookupError |
| Sessions.WalkAppend | server/models/session.py:181-184 | Walking a + b is walking a, then b from where a ended |
| Sessions.Walk | server/models/session.py:181-184 | The loop of `getObject` computes `WalkSpec` |
| Sessions.LastSlash | server/models/session.py:242-245 | `rfind('/')` |
| Sessions.RStripSlashes | server/models/session.py:242-245 | `rstrip('/')` |
| Sessions.PathSplit | server/models/session.py:244 | POSIX `os.path.split`: a path of slashes only splits to (path, ""); any other path gets a strictly shorter head |
| Sessions.PathSplitShape | server/models/session.py:244 | The tail is the slash-free end of the path, and the head is what precedes it without trailing slashes |
| Sessions.JoinedLastNotSlash | server/models/session.py:241-246 | Joined components end in a non-slash |
| Sessions.SplitSingle | server/models/session.py:244 | Splitting "c" or "/c" gives ("", c) or ("/", c) |
| Sessions.SplitLast | server/models/session.py:244 | Splitting "q/c" gives (q, c) |
| Sessions.ComponentsOfJoined | server/models/session.py:241-246 | For non-empty slash-free components joined by single '/', with or without a leading '/', the split gives exactly those components in order |
| Sessions.ComponentsStep | server/models/session.py:243-245 | One split moves one component to the front of the result |
| Sessions.SplitLoopStalls | server/models/session.py:243-244 | A path of two or more slashes passes the loop test but splits to itself |
| Sessions.StopTestsAgree | server/models/session.py:243 | Away from a leading "//", the loop test as written and "only slashes are left" agree |
| Sessions.SplitPathAsWritten | server/models/session.py:241-246 | On paths not starting with "//", the loop as written returns the components |
| Sessions.SplitPath | server/models/session.py:241-246 | With the loop stopping once only slashes are left, the result is the components on every path |
| Sessions.MountedPathWalks | server/models/session.py:175-194 | For an admin, a path under a folder mounted at "/data" resolves by walking its components from that folder |
| Sessions.GetObject | server/models/session.py:175-194 | Ownership check, then the root container, then the walk over the split components |
| FolderDataset.PathJoinShape | server/resources/misc.py:28-34 | POSIX `os.path.join`: the result ends with the name; a relative name is joined below the path with exactly one '/' |
| FolderDataset.ItemEntries | server/resources/misc.py:25-29 | One entry per item, in order, with the stringified id and the joined path |
| FolderDataset.Recurse | server/resources/misc.py:23-41 | The listing has one entry per item and folder anywhere below |
| FolderDataset.FolderEntries | server/resources/misc.py:30-40 | One entry per child folder and per entry of its listing |
| FolderDataset.FolderToDataset | server/resources/misc.py:43 | The listing starts at '/' and counts every descendant |
| FolderDataset.ItemsFirst | server/resources/misc.py:25-41 | A folder's items come before any subfolder, each at the path joined with its name |
| FolderDataset.TopLevelItems | server/resources/misc.py:28-43 | A top-level item with a relative name is mounted at "/" + its name |
| FolderDataset.FolderEntriesAt | server/resources/misc.py:30-40 | The k-th child folder's entry sits at its offset, and its own listing follows it directly |
| FolderDataset.OffsetShift | server/resources/misc.py:30-40 | The first folder's entry and listing shift the positions of later folders |
| FolderDataset.SubfolderFollowedByItsListing | server/resources/misc.py:30-40 | In a folder's listing, each subfolder entry comes after all the items and is immediately followed by its own listing |
| FolderDataset.ListingIds | server/resources/misc.py:22-41 | The ids in the listing are exactly the ids of the items and folders anywhere below |
| FolderDataset.ListingIdsAll | server/resources/misc.py:30-40 | The same for a list of child folders |
| FakeDataServer.MultiplierTable | plugin_tests/httpserver.py:6-11 | The units are exactly '', K, M and G, worth 1, 1024, 1024² and 1024³ |
| FakeDataServer.FirstDigit | plugin_tests/httpserver.py:17 | The first digit at or after an index |
| FakeDataServer.RunEnd | plugin_tests/httpserver.py:17 | The end of a run of digits |
| FakeDataServer.SearchDigits | plugin_tests/httpserver.py:17-18 | None iff the path has no digit; otherwise a non-empty run of digits |
| FakeDataServer.DigitsOfNumber | plugin_tests/httpserver.py:21-23 | `int` of the decimal digits of n is n |
| FakeDataServer.RequestedSize | plugin_tests/httpserver.py:17-29 | No digit raises IOError 'size pattern not found'; an unknown unit raises 'no such unit <unit>' |
| FakeDataServer.Respond | plugin_tests/httpserver.py:15-42 | 200 with exactly size bytes, byte i equal to i mod 256, iff the size parses; otherwise 404 'File Not Found: <path> (<message>)' |
| FakeDataServer.NoDigitsNotFound | plugin_tests/httpserver.py:17-42 | A path with no digit is answered 404 |
| FakeDataServer.SizedPath | plugin_tests/httpserver.py:21-29 | "/<n><unit>" asks for n times the unit's multiplier |
| FakeDataServer.DigitsAfterIndexOne | plugin_tests/httpserver.py:22 | The unit is read as if the digits started at index 1: "/a12" asks for unit "2" |
| FakeDataServer.Handler.DoGet | plugin_tests/httpserver.py:15-42 | The write loop sends exactly `Respond`'s body after status 200, or status 404 with its message |

## Left out

- Concurrency is not modelled: `TransferThread`, `CollectorThread` and its periodic loop, and the time between store updates. Each store operation is one atomic step, and steps run one after another.
- Locks.LockModel.AcquireLock: `waitForPendingDelete` polls every 50 ms until the increment matches. The model makes one attempt (`WaitForPendingDeleteAttempt`), and `AcquireLock` reports a blocked attempt instead of waiting.
- `unlockAll` raises 'Not yet here' (server/models/lock.py:176-177). It has no behaviour to model.
- MongoDB and Girder themselves are not modelled: queries, `save`, ObjectId generation, access control (`setUserAccess`, access levels, `exposeFields`) and the order of `find` results. A listing is specified as "each matching document once".
- Time is an integer parameter. BSON timestamps, `$currentDate` and `utcnow()` are not modelled beyond "stamped with the current time". The mismatch between the stamped timestamp and the date in the filter is stated separately (`RecentEnoughAsWritten`).
- Floating point is not modelled. The GC fractions and the 0.001 progress fraction are `real`.
- FileGc.PeriodicFileGC.Collect: models the evidently intended collect (`CollectSpec`), over a materialised list of the candidates. As written, `getCollectionCandidates` returns a pymongo cursor, which the size loop exhausts and whose `sort` takes no `key` argument, so `collect` raises TypeError before deleting anything (see Findings; `CollectAsWritten`).
- TwoObjectsOneEvicted: holds of the corrected collect (`CollectSpec`). The code as written raises TypeError on this input and deletes nothing (`CursorSortBlocksCollection`).
- ListAll: the time filter is the evidently intended one (`RecentEnough`). As the store evaluates it, a record with an end time is never listed when `discardOld` is true (see Findings; `StampedEndTimeNeverListed`).
- ListAllForUser: the same time filter as `ListAll`, with the same difference from the code as written.
- ListAllForSession: the same time filter as `ListAll`, with the same difference from the code as written.
- Transfers.FinishedRecordAges: states the intended one-minute window. As written, `endTime` is stamped as a BSON timestamp (server/models/transfer.py:79) and compared with a date (server/models/transfer.py:117-118), which never matches; `restartInterruptedTransfers` reads `listAll` and is affected in the same way.
- Wiring is not modelled. `PeriodicFileGC.__init__` calls `FileGC.__init__` with the wrong number of arguments (server/lib/file_gc.py:65) and starts a thread.
- FileGc.PeriodicFileGC.Unreacheable has no contract beyond changing nothing: `unreacheable` does nothing.
- Directory creation (`os.makedirs`, whose OSError is ignored) is not modelled. The disk is a flat map from paths to contents.
- Opening the input of a URL handler is a parameter of `FileLikeUrlTransferHandler.Transfer`. `openInputStream` is abstract, and the HTTP and local handlers that implement it are not part of this model.
- UrlHandlers.InputStream.Read always returns a full buffer while enough input remains. A real stream may return fewer bytes, and such reads are not modelled.
- Mismatched constructor arities in the source are not modelled; the model follows the evident data flow:
  - `GirderDownloadTransferHandler` passes 3 arguments to the 5-argument `TransferHandler.__init__`;
  - `getTransferHandler` passes an extra `user` to `getURLTransferHandler` (server/lib/transfer_manager.py:161);
  - the table's handler classes are called with 4 arguments, while the constructors in server/lib/handlers/common.py take 6.
- The model keeps `updateTransferProgress`'s call to `transferManager.transferProgress` as a list of sent updates. `transferProgress` itself is not part of this model.
- TransferManager.GirderDownloadHandler.Transfer: `flen` is never set on this path. The TRANSFERRING record and the progress updates therefore use size 0, as written.
- The Girder download stream is a parameter: a sequence of chunks.
- TransferRun.StatusTransferHandler.Run: the failure message is a parameter. `ex.message` does not exist on Python 3 exceptions, and the secondary error that raises is not modelled.
- A failed transfer never clears `transferInProgress` on the item. No code path does, so the model has no such step.
- The assetstore lookup (`load`, `getAssetstoreAdapter`, `fullPath`) is a map from assetstore id to an optional full path. A missing or failing lookup gives no URL.
- TransferManager.GetTransferHandler: an item that is not in the item-to-files map stands for `load` returning None, which raises TypeError.
- TransferManager.ItemEntry: a missing `dm.transfer` sub-document and a missing field inside it both raise KeyError. The model does not tell the two apart.
- TransferManager.StartTransferSpec: a user that does not exist (`getUser` returns None) raises TypeError at `user['_id']`. It is modelled as `TypeError(NoUser)`.
- `startTransfer` on the base `TransferManager` and `transferCompleted` do nothing. They are not modelled.
- The Globus handler, the REST resources, the plugin wiring, the FUSE file systems and the superseded copies in the older tree are not part of this model.
- Sessions.GetObject: the `children` flag and `listChildren` are not modelled.
- `loadObjects` is not modelled. It annotates dataSet entries in place with their loaded objects, for the REST layer.
- Sessions.ContainsItem: the session is looked up by id and the user is not consulted. The model takes the session document and the folder/item hierarchy as parameters.
- The hierarchy has no cycles, which every Girder tree satisfies. It is stated as a ghost rank map, which `ContainsItemOrAncestor` requires.
- FolderDataset: `childFolders` filters by the current user's access. The model lists all child folders.
- The entries written by `folderToDataset` use the key `mountPoint`, while sessions read `mountPath` (server/schema/dataset.py:16-21). The two models keep each module's own key.
- The `dm.sessionCreated` and `dm.sessionModified` events are routed to no-ops (`SessionEvent`).
- FakeDataServer.Handler.DoGet: the status reason phrase and the headers are not modelled. IOError is modelled as OSError, which it is on Python 3.

## Findings

| source | as written | input that shows it | evidently intended | confidence | as-written member | corrected member |
|---|---|---|---|---|---|---|
| server/models/session.py:241-246 | `splitPath` loops while the path is neither '' nor '/'. `os.path.split` of a path made only of two or more slashes returns that same path as the head, so the loop never ends. | `getObject` with a session that mounts "/data" and the path "/data///x": the tail below the mount is "//x". After "x" is split off, the remaining "//" splits to ("//", "") forever. | Stop once only slashes are left, returning the components. | high, not executed | Sessions.SplitLoopStalls | Sessions.SplitPath |
| server/lib/file_gc.py:84-108 | `collect` calls `sortCandidates`, which runs `list.sort(key=...)` on the result of `getCollectionCandidates`. That result is a pymongo cursor (server/models/lock.py:212-216). A cursor's `sort` takes no `key` argument, and the size loop at lines 81-82 has already exhausted it. | Any run in which the start test holds, for example capacity 22, fractions 0.5 and two cached, unpinned items of size 10: `collect` raises TypeError and no file is deleted. | Materialise the candidates as a list, sort it by the strategy's key, and delete in that order until the stop test holds. | high, not executed | FileGc.CollectAsWritten | FileGc.CollectSpec |
| server/models/transfer.py:78-118 | `setStatus` stamps `endTime` with `$currentDate` of type `timestamp`, while `getTimeConstraintQuery` compares `endTime` with a `datetime` using `$gte`. MongoDB compares values of different BSON types by type order, so a timestamp never matches a date. | A record set to DONE with an end time: `listAll()`, `listAllForUser` and `listAllForSession` with the default `discardOld` omit it even at the moment it finished. | A finished record is listed for one minute after its end time. | medium, not executed | Transfers.StampedEndTimeNeverListed | Transfers.FinishedRecordAges |
