/** The per-item cache bookkeeping of the data manager (server/models/lock.py).

    Each Girder item carries a `dm` sub-document. Every operation on it is one
    conditional database update: "apply this patch to the item if the filter
    matches, and report whether it matched". The filters follow MongoDB's rules
    for absent fields: `{f: {$ne: True}}` matches a missing field, `{f: 0}` does
    not, and `$inc` on a missing field starts from 0. Each update is modelled by
    a function from the item collection to an `Update`, and the `LockModel`
    class applies those functions to its state one atomic step at a time. */
module Locks {
  import opened Base

  /** The `dm` sub-document of an item; every field may be absent. */
  datatype DmState = DmState(
    lockCount: Option<int>,
    cached: Option<bool>,
    transferInProgress: Option<bool>,
    deleteInProgress: Option<bool>,
    psPath: Option<Path>,
    lastUnlocked: Option<Timestamp>,
    downloadCount: Option<int>,
    transferUserId: Option<UserId>,
    transferSessionId: Option<SessionId>)

  /** An item that has never been touched by the data manager. */
  const EmptyDm := DmState(None, None, None, None, None, None, None, None, None)

  /** A Girder item as far as the cache is concerned: its size, its `dm`
      sub-document, and the timestamp-valued fields found at the top level of the
      document (a dotted name such as `dm.lastUnlocked` addresses the nested
      field in a query, but is a different key in the document itself). */
  datatype Item = Item(size: nat, dm: DmState, topLevel: map<string, Timestamp>)

  /** A document returned by a query on the item collection. */
  datatype ItemDoc = ItemDoc(id: ItemId, item: Item)

  type Items = map<ItemId, Item>

  /** The outcome of one conditional update: the new collection and whether the
      filter matched. */
  datatype Update = Update(items: Items, matched: bool)

  /** A lock record: one caller's pin on one item. */
  datatype LockRecord = LockRecord(id: LockId, userId: UserId, sessionId: SessionId, itemId: ItemId, ownerId: string)

  const DownloadBufSize: nat := 65536

  /** The `$inc` operator: an absent field counts as 0. */
  function Inc(f: Option<int>, delta: int): Option<int> {
    Some(f.GetOr(0) + delta)
  }

  /** `items` and `items'` differ at most in the `dm` sub-document of `id`. */
  ghost predicate OnlyDmOf(items: Items, items': Items, id: ItemId) {
    && items'.Keys == items.Keys
    && (forall k :: k in items && k != id ==> items'[k] == items[k])
    && (id in items ==> items'[id].size == items[id].size && items'[id].topLevel == items[id].topLevel)
  }

  function PatchDm(items: Items, id: ItemId, dm: DmState): Items
    requires id in items
  {
    items[id := items[id].(dm := dm)]
  }

  /** One attempt of `waitForPendingDelete`: `$inc lockCount by 1` on the item,
      filtered by `deleteInProgress $ne True`. */
  function IncrementLockCount(items: Items, id: ItemId): (u: Update)
    ensures u.matched <==> id in items && items[id].dm.deleteInProgress != Some(true)
    ensures OnlyDmOf(items, u.items, id)
    ensures !u.matched ==> u.items == items
    ensures u.matched ==> u.items[id].dm == items[id].dm.(lockCount :=
      Some((if items[id].dm.lockCount.Some? then items[id].dm.lockCount.value else 0) + 1))
  {
    if id in items && items[id].dm.deleteInProgress != Some(true) then
      Update(PatchDm(items, id, items[id].dm.(lockCount := Inc(items[id].dm.lockCount, 1))), true)
    else
      Update(items, false)
  }

  /** `tryLock`: reserve the right to transfer the item. The filter requires that
      neither `transferInProgress` nor `cached` is True (absent counts as not
      True); the patch sets `transferInProgress` and records the transfer's user
      and session. */
  function TryLockUpdate(items: Items, id: ItemId, user: UserId, session: SessionId): (u: Update)
    ensures u.matched <==> id in items && items[id].dm.transferInProgress != Some(true) && items[id].dm.cached != Some(true)
    ensures OnlyDmOf(items, u.items, id)
    ensures !u.matched ==> u.items == items
    ensures u.matched ==> u.items[id].dm == items[id].dm.(transferInProgress := Some(true),
      transferUserId := Some(user), transferSessionId := Some(session))
  {
    if id in items && items[id].dm.transferInProgress != Some(true) && items[id].dm.cached != Some(true) then
      var dm := items[id].dm;
      Update(PatchDm(items, id, dm.(transferInProgress := Some(true), transferUserId := Some(user),
                                    transferSessionId := Some(session))), true)
    else
      Update(items, false)
  }

  /** `tryLockForDeletion`: set `deleteInProgress` when it is not True and the
      lock count is present and equal to 0. `cached` is not consulted. */
  function TryLockForDeletionUpdate(items: Items, id: ItemId): (u: Update)
    ensures u.matched <==> id in items && items[id].dm.deleteInProgress != Some(true) && items[id].dm.lockCount == Some(0)
    ensures OnlyDmOf(items, u.items, id)
    ensures !u.matched ==> u.items == items
    ensures u.matched ==> u.items[id].dm == items[id].dm.(deleteInProgress := Some(true))
  {
    if id in items && items[id].dm.deleteInProgress != Some(true) && items[id].dm.lockCount == Some(0) then
      Update(PatchDm(items, id, items[id].dm.(deleteInProgress := Some(true))), true)
    else
      Update(items, false)
  }

  /** `unlockForDeletion`: unconditionally set `deleteInProgress` to False. */
  function UnlockForDeletionUpdate(items: Items, id: ItemId): (u: Update)
    ensures u.matched <==> id in items
    ensures OnlyDmOf(items, u.items, id)
    ensures !u.matched ==> u.items == items
    ensures u.matched ==> u.items[id].dm == items[id].dm.(deleteInProgress := Some(false))
  {
    if id in items then Update(PatchDm(items, id, items[id].dm.(deleteInProgress := Some(false))), true)
    else Update(items, false)
  }

  /** `evict`: only sets `cached` to False. */
  function EvictUpdate(items: Items, id: ItemId): (u: Update)
    ensures u.matched <==> id in items
    ensures OnlyDmOf(items, u.items, id)
    ensures !u.matched ==> u.items == items
    ensures u.matched ==> u.items[id].dm == items[id].dm.(cached := Some(false))
  {
    if id in items then Update(PatchDm(items, id, items[id].dm.(cached := Some(false))), true)
    else Update(items, false)
  }

  /** `fileDeleted`: clear `cached` and `deleteInProgress` and remove `psPath`. */
  function FileDeletedUpdate(items: Items, id: ItemId): (u: Update)
    ensures u.matched <==> id in items
    ensures OnlyDmOf(items, u.items, id)
    ensures !u.matched ==> u.items == items
    ensures u.matched ==> u.items[id].dm == items[id].dm.(cached := Some(false),
      deleteInProgress := Some(false), psPath := None)
  {
    if id in items then
      Update(PatchDm(items, id, items[id].dm.(cached := Some(false), deleteInProgress := Some(false), psPath := None)), true)
    else Update(items, false)
  }

  /** `fileDownloaded`: the item is now cached at `psPath`; the transfer flag is
      cleared, the transfer owner fields are removed and the download count grows
      by exactly one (from 0 when absent). */
  function FileDownloadedUpdate(items: Items, id: ItemId, psPath: Path): (u: Update)
    ensures u.matched <==> id in items
    ensures OnlyDmOf(items, u.items, id)
    ensures !u.matched ==> u.items == items
    ensures u.matched ==> u.items[id].dm == items[id].dm.(cached := Some(true),
      transferInProgress := Some(false), psPath := Some(psPath), transferUserId := None,
      transferSessionId := None,
      downloadCount := Some((if items[id].dm.downloadCount.Some? then items[id].dm.downloadCount.value else 0) + 1))
  {
    if id in items then
      var dm := items[id].dm;
      Update(PatchDm(items, id, dm.(cached := Some(true), transferInProgress := Some(false), psPath := Some(psPath),
                                    transferUserId := None, transferSessionId := None,
                                    downloadCount := Inc(dm.downloadCount, 1))), true)
    else Update(items, false)
  }

  /** The result of `unlock`: the new collection and what the call returned. */
  datatype Unlocked = Unlocked(items: Items, result: Result<bool>)

  /** `unlock`: a find-and-modify that decrements `lockCount` (from 0 when absent),
      stamps `lastUnlocked` with the current time on every call, and returns
      whether the count after the decrement is 0. Nothing stops the count from
      going negative. On a missing item the database returns None and the
      subscript raises TypeError. */
  function UnlockUpdate(items: Items, id: ItemId, now: Timestamp): (u: Unlocked)
    ensures id !in items <==> u.result.Err?
    ensures u.result.Err? ==> u.items == items && u.result.error.TypeError?
    ensures OnlyDmOf(items, u.items, id)
    ensures id in items ==>
      var count := (if items[id].dm.lockCount.Some? then items[id].dm.lockCount.value else 0) - 1;
      && u.items[id].dm == items[id].dm.(lockCount := Some(count), lastUnlocked := Some(now))
      && u.result == Ok(count == 0)
  {
    if id in items then
      var dm := items[id].dm;
      var dm' := dm.(lockCount := Inc(dm.lockCount, -1), lastUnlocked := Some(now));
      Unlocked(PatchDm(items, id, dm'), Ok(dm'.lockCount.value == 0))
    else
      Unlocked(items, Err(TypeError("'NoneType' object is not subscriptable")))
  }

  /** The query of `listDownloadingItems`: `transferInProgress` is True. */
  predicate Downloading(item: Item) {
    item.dm.transferInProgress == Some(true)
  }

  /** The query of `getCollectionCandidates`: `cached` is True and `lockCount`
      is present and 0. */
  predicate Collectable(item: Item) {
    item.dm.cached == Some(true) && item.dm.lockCount == Some(0)
  }

  /** Removing a lock document by its id. */
  function RemoveLockRecord(locks: seq<LockRecord>, id: LockId): (r: seq<LockRecord>)
    ensures forall l :: l in r <==> l in locks && l.id != id
    ensures |r| <= |locks|
    decreases |locks|
  {
    if locks == [] then []
    else (if locks[0].id == id then [] else [locks[0]]) + RemoveLockRecord(locks[1..], id)
  }

  /** The item of each lock record, in order. */
  function LockedItems(locks: seq<LockRecord>): seq<ItemId> {
    seq(|locks|, k requires 0 <= k < |locks| => locks[k].itemId)
  }

  /** The number of lock records on an item: how often the item occurs among
      the records' items. */
  function CountPins(locks: seq<LockRecord>, itemId: ItemId): (n: nat)
    ensures n == multiset(LockedItems(locks))[itemId]
    decreases |locks|
  {
    if locks == [] then 0
    else
      assert LockedItems(locks) == [locks[0].itemId] + LockedItems(locks[1..]);
      (if locks[0].itemId == itemId then 1 else 0) + CountPins(locks[1..], itemId)
  }

  /** What `acquireLock` did after saving the lock record: either the increment
      was refused because a deletion holds the item (the code then sleeps and
      retries until another actor clears the flag), or the item is pinned and
      `itemLocked` says whether this caller won the transfer reservation (and the
      `dm.itemLocked` event fired). */
  datatype Acquired = BlockedByDeletion | Pinned(itemLocked: bool)

  class LockModel {
    /** The item collection. */
    var items: Items
    /** The lock collection, in insertion order. */
    var locks: seq<LockRecord>
    /** The next fresh lock id. */
    var nextLockId: LockId

    ghost predicate Valid()
      reads this
    {
      && (forall k :: 0 <= k < |locks| ==> locks[k].id < nextLockId)
      && (forall i, j :: 0 <= i < j < |locks| ==> locks[i].id != locks[j].id)
    }

    constructor (items: Items)
      ensures Valid()
      ensures this.items == items && locks == [] && nextLockId == 0
    {
      this.items := items;
      locks := [];
      nextLockId := 0;
    }

    /** `listLocks`: the user's locks, narrowed by session, item and owner when
        those are given. */
    function ListLocks(user: UserId, sessionId: Option<SessionId>, itemId: Option<ItemId>, ownerId: Option<string>): (r: seq<LockRecord>)
      reads this
      ensures forall l :: l in r <==>
        && l in locks
        && l.userId == user
        && (sessionId.Some? ==> l.sessionId == sessionId.value)
        && (itemId.Some? ==> l.itemId == itemId.value)
        && (ownerId.Some? ==> l.ownerId == ownerId.value)
    {
      Filter(locks, (l: LockRecord) =>
        && l.userId == user
        && (sessionId.Some? ==> l.sessionId == sessionId.value)
        && (itemId.Some? ==> l.itemId == itemId.value)
        && (ownerId.Some? ==> l.ownerId == ownerId.value))
    }

    /** One attempt of `waitForPendingDelete`; `done` is whether it matched. */
    method WaitForPendingDeleteAttempt(itemId: ItemId) returns (done: bool)
      modifies this
      ensures items == IncrementLockCount(old(items), itemId).items
      ensures done == IncrementLockCount(old(items), itemId).matched
      ensures locks == old(locks) && nextLockId == old(nextLockId)
    {
      var u := IncrementLockCount(items, itemId);
      items := u.items;
      done := u.matched;
    }

    method TryLock(user: UserId, sessionId: SessionId, itemId: ItemId) returns (won: bool)
      modifies this
      ensures items == TryLockUpdate(old(items), itemId, user, sessionId).items
      ensures won == TryLockUpdate(old(items), itemId, user, sessionId).matched
      ensures locks == old(locks) && nextLockId == old(nextLockId)
    {
      var u := TryLockUpdate(items, itemId, user, sessionId);
      items := u.items;
      won := u.matched;
    }

    /** `acquireLock`: save a lock record (the owner defaults to the session),
        make one attempt to increment the lock count, and on success try to
        reserve the transfer. The record is returned whatever happens next. */
    method AcquireLock(user: UserId, sessionId: SessionId, itemId: ItemId, ownerId: Option<string>)
      returns (lock: LockRecord, status: Acquired)
      requires Valid()
      modifies this
      ensures Valid()
      ensures lock == LockRecord(old(nextLockId), user, sessionId, itemId, ownerId.GetOr(sessionId))
      ensures locks == old(locks) + [lock] && nextLockId == old(nextLockId) + 1
      ensures var inc := IncrementLockCount(old(items), itemId);
        && (!inc.matched ==> status == BlockedByDeletion && items == old(items))
        && (inc.matched ==>
              var t := TryLockUpdate(inc.items, itemId, user, sessionId);
              status == Pinned(t.matched) && items == t.items)
    {
      lock := LockRecord(nextLockId, user, sessionId, itemId, ownerId.GetOr(sessionId));
      locks := locks + [lock];
      nextLockId := nextLockId + 1;
      var done := WaitForPendingDeleteAttempt(itemId);
      if !done {
        status := BlockedByDeletion;
      } else {
        var won := TryLock(user, sessionId, itemId);
        status := Pinned(won);
      }
    }

    method TryLockForDeletion(itemId: ItemId) returns (ok: bool)
      modifies this
      ensures items == TryLockForDeletionUpdate(old(items), itemId).items
      ensures ok == TryLockForDeletionUpdate(old(items), itemId).matched
      ensures locks == old(locks) && nextLockId == old(nextLockId)
    {
      var u := TryLockForDeletionUpdate(items, itemId);
      items := u.items;
      ok := u.matched;
    }

    method UnlockForDeletion(itemId: ItemId)
      modifies this
      ensures items == UnlockForDeletionUpdate(old(items), itemId).items
      ensures locks == old(locks) && nextLockId == old(nextLockId)
    {
      items := UnlockForDeletionUpdate(items, itemId).items;
    }

    method Evict(itemId: ItemId)
      modifies this
      ensures items == EvictUpdate(old(items), itemId).items
      ensures locks == old(locks) && nextLockId == old(nextLockId)
    {
      items := EvictUpdate(items, itemId).items;
    }

    method Unlock(itemId: ItemId, now: Timestamp) returns (r: Result<bool>)
      modifies this
      ensures items == UnlockUpdate(old(items), itemId, now).items
      ensures r == UnlockUpdate(old(items), itemId, now).result
      ensures locks == old(locks) && nextLockId == old(nextLockId)
    {
      var u := UnlockUpdate(items, itemId, now);
      items := u.items;
      r := u.result;
    }

    /** `releaseLock`: remove the record, then unlock the item. The result is
        `Ok(true)` exactly when the count reached 0 and `dm.itemUnlocked` fired. */
    method ReleaseLock(lock: LockRecord, now: Timestamp) returns (r: Result<bool>)
      requires Valid()
      modifies this
      ensures Valid()
      ensures locks == RemoveLockRecord(old(locks), lock.id) && nextLockId == old(nextLockId)
      ensures items == UnlockUpdate(old(items), lock.itemId, now).items
      ensures r == UnlockUpdate(old(items), lock.itemId, now).result
    {
      locks := RemoveLockRecord(locks, lock.id);
      RemovePreservesIds(old(locks), lock.id, nextLockId);
      r := Unlock(lock.itemId, now);
    }

    lemma RemovePreservesIds(ls: seq<LockRecord>, id: LockId, bound: LockId)
      requires forall k :: 0 <= k < |ls| ==> ls[k].id < bound
      requires forall i, j :: 0 <= i < j < |ls| ==> ls[i].id != ls[j].id
      ensures forall k :: 0 <= k < |RemoveLockRecord(ls, id)| ==> RemoveLockRecord(ls, id)[k].id < bound
      ensures forall i, j :: 0 <= i < j < |RemoveLockRecord(ls, id)| ==>
        RemoveLockRecord(ls, id)[i].id != RemoveLockRecord(ls, id)[j].id
      decreases |ls|
    {
      if ls != [] {
        RemovePreservesIds(ls[1..], id, bound);
        var rest := RemoveLockRecord(ls[1..], id);
        forall k | 0 <= k < |rest| ensures rest[k].id != ls[0].id {
          assert rest[k] in ls[1..];
        }
      }
    }

    method FileDeleted(itemId: ItemId)
      modifies this
      ensures items == FileDeletedUpdate(old(items), itemId).items
      ensures locks == old(locks) && nextLockId == old(nextLockId)
    {
      items := FileDeletedUpdate(items, itemId).items;
    }

    method FileDownloaded(itemId: ItemId, psPath: Path)
      modifies this
      ensures items == FileDownloadedUpdate(old(items), itemId, psPath).items
      ensures locks == old(locks) && nextLockId == old(nextLockId)
    {
      items := FileDownloadedUpdate(items, itemId, psPath).items;
    }

    /** The documents of the items that satisfy `query`, once each, in the order
        the database happens to return them (left unspecified). */
    method FindItems(query: Item -> bool) returns (docs: seq<ItemDoc>)
      ensures forall d :: d in docs <==> d.id in items && d.item == items[d.id] && query(d.item)
      ensures forall i, j :: 0 <= i < j < |docs| ==> docs[i].id != docs[j].id
    {
      docs := [];
      var rest := items.Keys;
      while rest != {}
        invariant rest <= items.Keys
        invariant forall d :: d in docs <==> d.id in items.Keys - rest && d.item == items[d.id] && query(d.item)
        invariant forall i, j :: 0 <= i < j < |docs| ==> docs[i].id != docs[j].id
        decreases rest
      {
        var k :| k in rest;
        if query(items[k]) {
          forall i | 0 <= i < |docs| ensures docs[i].id != k {
            assert docs[i] in docs;
          }
          docs := docs + [ItemDoc(k, items[k])];
        }
        rest := rest - {k};
      }
    }

    /** `listDownloadingItems`: every item whose `transferInProgress` is True. */
    method ListDownloadingItems() returns (docs: seq<ItemDoc>)
      ensures forall d :: d in docs <==> d.id in items && d.item == items[d.id] && d.item.dm.transferInProgress == Some(true)
      ensures forall i, j :: 0 <= i < j < |docs| ==> docs[i].id != docs[j].id
    {
      docs := FindItems(Downloading);
    }

    /** `getCollectionCandidates`: every item that is cached with a lock count
        present and equal to 0. */
    method GetCollectionCandidates() returns (docs: seq<ItemDoc>)
      ensures forall d :: d in docs <==>
        d.id in items && d.item == items[d.id] && d.item.dm.cached == Some(true) && d.item.dm.lockCount == Some(0)
      ensures forall i, j :: 0 <= i < j < |docs| ==> docs[i].id != docs[j].id
    {
      docs := FindItems(Collectable);
    }

    /** `downloadItem`: the locked item must exist and be cached; the call
        then returns a stream over its cached copy without opening it. The
        stream is identified here by the path it will read (see `Stream`). */
    function DownloadItem(lock: LockRecord): (r: Result<Path>)
      reads this
      ensures lock.itemId !in items <==> r == Err(ValueError("Internal error: unable to find item for lock"))
      ensures lock.itemId in items && items[lock.itemId].dm.cached.None? ==> r == Err(KeyError("cached"))
      ensures lock.itemId in items && items[lock.itemId].dm.cached == Some(false) ==>
        r == Err(ValueError("Item is not available yet"))
      ensures lock.itemId in items && items[lock.itemId].dm.cached == Some(true) ==>
        r == if items[lock.itemId].dm.psPath.Some? then Ok(items[lock.itemId].dm.psPath.value) else Err(KeyError("psPath"))
    {
      if lock.itemId !in items then Err(ValueError("Internal error: unable to find item for lock"))
      else
        var dm := items[lock.itemId].dm;
        if dm.cached.None? then Err(KeyError("cached"))
        else if !dm.cached.value then Err(ValueError("Item is not available yet"))
        else if dm.psPath.None? then Err(KeyError("psPath"))
        else Ok(dm.psPath.value)
    }
  }

  /** Reading the stream `downloadItem` returns: opening the file fails if it
      is not on disk; otherwise it is read at most 65536 bytes at a time until
      a read comes back empty. `files` is the content of the file system when
      the stream is read. */
  method Stream(psPath: Path, files: map<Path, seq<byte>>) returns (r: Result<seq<seq<byte>>>)
    ensures psPath !in files <==> r == Err(OSError("No such file or directory: " + psPath))
    ensures r.Ok? ==> Flatten(r.value) == files[psPath]
    ensures r.Ok? ==> forall k :: 0 <= k < |r.value| ==> 0 < |r.value[k]| <= DownloadBufSize
    ensures r.Ok? ==> forall k :: 0 <= k < |r.value| - 1 ==> |r.value[k]| == DownloadBufSize
  {
    if psPath !in files {
      return Err(OSError("No such file or directory: " + psPath));
    }
    var content := files[psPath];
    var chunks: seq<seq<byte>> := [];
    var pos := 0;
    while true
      invariant 0 <= pos <= |content|
      invariant Flatten(chunks) == content[..pos]
      invariant forall k :: 0 <= k < |chunks| ==> 0 < |chunks[k]| <= DownloadBufSize
      invariant forall k :: 0 <= k < |chunks| ==> |chunks[k]| == DownloadBufSize || (k == |chunks| - 1 && pos == |content|)
      decreases |content| - pos
    {
      var n := if |content| - pos < DownloadBufSize then |content| - pos else DownloadBufSize;
      var data := content[pos..pos + n];
      if |data| == 0 {
        break;
      }
      chunks := chunks + [data];
      pos := pos + n;
    }
    assert content[..pos] == content;
    return Ok(chunks);
  }
}
