/** Properties of sequences of item-store updates (server/models/lock.py).
    Every store method is one atomic step, so the behaviour of concurrent callers
    is that of some sequence of steps; the lemmas below hold for every such
    sequence. */
module LockTraces {
  import opened Base
  import opened Locks

  /** One atomic update of the item collection. */
  datatype StoreOp =
    | IncrementOp(id: ItemId)
    | TryLockOp(id: ItemId, user: UserId, session: SessionId)
    | UnlockOp(id: ItemId, now: Timestamp)
    | TryLockForDeletionOp(id: ItemId)
    | UnlockForDeletionOp(id: ItemId)
    | EvictOp(id: ItemId)
    | FileDeletedOp(id: ItemId)
    | FileDownloadedOp(id: ItemId, psPath: Path)

  function Step(items: Items, op: StoreOp): Update {
    match op
    case IncrementOp(id) => IncrementLockCount(items, id)
    case TryLockOp(id, user, session) => TryLockUpdate(items, id, user, session)
    case UnlockOp(id, now) =>
      var u := UnlockUpdate(items, id, now);
      Update(u.items, u.result.Ok?)
    case TryLockForDeletionOp(id) => TryLockForDeletionUpdate(items, id)
    case UnlockForDeletionOp(id) => UnlockForDeletionUpdate(items, id)
    case EvictOp(id) => EvictUpdate(items, id)
    case FileDeletedOp(id) => FileDeletedUpdate(items, id)
    case FileDownloadedOp(id, psPath) => FileDownloadedUpdate(items, id, psPath)
  }

  /** The collection after the first `k` steps of `ops`. */
  function StateAt(items: Items, ops: seq<StoreOp>, k: nat): Items
    requires k <= |ops|
    decreases k
  {
    if k == 0 then items else Step(StateAt(items, ops, k - 1), ops[k - 1]).items
  }

  /** Whether step `k` of `ops` matched its filter. */
  predicate MatchedAt(items: Items, ops: seq<StoreOp>, k: nat)
    requires k < |ops|
  {
    Step(StateAt(items, ops, k), ops[k]).matched
  }

  predicate ClearsTransfer(op: StoreOp, id: ItemId) {
    op.FileDownloadedOp? && op.id == id
  }

  predicate ClearsDeletion(op: StoreOp, id: ItemId) {
    (op.UnlockForDeletionOp? || op.FileDeletedOp?) && op.id == id
  }

  /** No step ever adds or removes an item. */
  lemma {:induction false} StateKeepsKeys(items: Items, ops: seq<StoreOp>, k: nat)
    requires k <= |ops|
    ensures StateAt(items, ops, k).Keys == items.Keys
    decreases k
  {
    if k > 0 {
      StateKeepsKeys(items, ops, k - 1);
    }
  }

  /** No step changes an item's size or any field outside its `dm` sub-document;
      in particular none writes a top-level key named `dm.lastUnlocked`. */
  lemma {:induction false} StepsKeepTopLevel(items: Items, ops: seq<StoreOp>, k: nat, id: ItemId)
    requires k <= |ops| && id in items
    ensures id in StateAt(items, ops, k)
    ensures StateAt(items, ops, k)[id].topLevel == items[id].topLevel
    ensures StateAt(items, ops, k)[id].size == items[id].size
    decreases k
  {
    if k > 0 {
      StepsKeepTopLevel(items, ops, k - 1, id);
    }
  }

  /** Once set, `transferInProgress` stays True until a `fileDownloaded` on the
      same item. */
  lemma {:induction false} TransferFlagPersists(items: Items, ops: seq<StoreOp>, id: ItemId, i: nat, k: nat)
    requires i < k <= |ops|
    requires id in StateAt(items, ops, i + 1)
    requires StateAt(items, ops, i + 1)[id].dm.transferInProgress == Some(true)
    requires forall m :: i < m < k ==> !ClearsTransfer(ops[m], id)
    ensures id in StateAt(items, ops, k)
    ensures StateAt(items, ops, k)[id].dm.transferInProgress == Some(true)
    decreases k
  {
    if k > i + 1 {
      TransferFlagPersists(items, ops, id, i, k - 1);
      StepKeepsTransferFlag(StateAt(items, ops, k - 1), ops[k - 1], id);
    }
  }

  /** One step other than `fileDownloaded` on the item leaves its transfer
      flag set. */
  lemma StepKeepsTransferFlag(items: Items, op: StoreOp, id: ItemId)
    requires id in items && items[id].dm.transferInProgress == Some(true)
    requires !ClearsTransfer(op, id)
    ensures id in Step(items, op).items
    ensures Step(items, op).items[id].dm.transferInProgress == Some(true)
  {
    match op
    case IncrementOp(_) =>
    case TryLockOp(_, _, _) =>
    case UnlockOp(_, _) =>
    case TryLockForDeletionOp(_) =>
    case UnlockForDeletionOp(_) =>
    case EvictOp(_) =>
    case FileDeletedOp(_) =>
    case FileDownloadedOp(_, _) =>
  }

  /** Single-flight: after a successful `tryLock` on an item, every later
      `tryLock` on it fails until a `fileDownloaded` for it intervenes, whatever
      other updates happen in between. */
  lemma SingleFlight(items: Items, ops: seq<StoreOp>, id: ItemId, i: nat, j: nat)
    requires i < j < |ops|
    requires ops[i].TryLockOp? && ops[i].id == id && MatchedAt(items, ops, i)
    requires ops[j].TryLockOp? && ops[j].id == id
    requires forall m :: i < m < j ==> !ClearsTransfer(ops[m], id)
    ensures !MatchedAt(items, ops, j)
  {
    TransferFlagPersists(items, ops, id, i, j);
  }

  /** Once a deletion is reserved, `deleteInProgress` stays True until
      `unlockForDeletion` or `fileDeleted` on the same item. */
  lemma {:induction false} DeletionFlagPersists(items: Items, ops: seq<StoreOp>, id: ItemId, i: nat, k: nat)
    requires i < k <= |ops|
    requires id in StateAt(items, ops, i + 1)
    requires StateAt(items, ops, i + 1)[id].dm.deleteInProgress == Some(true)
    requires forall m :: i < m < k ==> !ClearsDeletion(ops[m], id)
    ensures id in StateAt(items, ops, k)
    ensures StateAt(items, ops, k)[id].dm.deleteInProgress == Some(true)
    decreases k
  {
    if k > i + 1 {
      DeletionFlagPersists(items, ops, id, i, k - 1);
      StepKeepsDeletionFlag(StateAt(items, ops, k - 1), ops[k - 1], id);
    }
  }

  /** One step other than `unlockForDeletion` or `fileDeleted` on the item
      leaves its deletion reservation in place. */
  lemma StepKeepsDeletionFlag(items: Items, op: StoreOp, id: ItemId)
    requires id in items && items[id].dm.deleteInProgress == Some(true)
    requires !ClearsDeletion(op, id)
    ensures id in Step(items, op).items
    ensures Step(items, op).items[id].dm.deleteInProgress == Some(true)
  {
    match op
    case IncrementOp(_) =>
    case TryLockOp(_, _, _) =>
    case UnlockOp(_, _) =>
    case TryLockForDeletionOp(_) =>
    case UnlockForDeletionOp(_) =>
    case EvictOp(_) =>
    case FileDeletedOp(_) =>
    case FileDownloadedOp(_, _) =>
  }

  /** The deletion guard: while a deletion reservation is held, no caller can pin
      the item and no second deleter can reserve it. */
  lemma DeletionExcludesPinning(items: Items, ops: seq<StoreOp>, id: ItemId, i: nat, j: nat)
    requires i < j < |ops|
    requires ops[i] == TryLockForDeletionOp(id) && MatchedAt(items, ops, i)
    requires ops[j] == IncrementOp(id) || ops[j] == TryLockForDeletionOp(id)
    requires forall m :: i < m < j ==> !ClearsDeletion(ops[m], id)
    ensures !MatchedAt(items, ops, j)
  {
    DeletionFlagPersists(items, ops, id, i, j);
  }

  /** The lock count as `$inc` sees it. */
  function LockCountOf(items: Items, id: ItemId): int
    requires id in items
  {
    items[id].dm.lockCount.GetOr(0)
  }

  lemma {:induction false} CountPinsAppend(locks: seq<LockRecord>, l: LockRecord, x: ItemId)
    ensures CountPins(locks + [l], x) == CountPins(locks, x) + (if l.itemId == x then 1 else 0)
    decreases |locks|
  {
    if locks != [] {
      assert (locks + [l])[1..] == locks[1..] + [l];
      CountPinsAppend(locks[1..], l, x);
    }
  }

  lemma {:induction false} CountPinsRemove(locks: seq<LockRecord>, lock: LockRecord)
    requires lock in locks
    requires forall i, j :: 0 <= i < j < |locks| ==> locks[i].id != locks[j].id
    ensures CountPins(RemoveLockRecord(locks, lock.id), lock.itemId) == CountPins(locks, lock.itemId) - 1
    decreases |locks|
  {
    if locks[0] == lock {
      assert forall l :: l in locks[1..] ==> l.id != lock.id by {
        forall l | l in locks[1..] ensures l.id != lock.id {
          var k :| 0 <= k < |locks[1..]| && locks[1..][k] == l;
          assert locks[k + 1] == l;
        }
      }
      RemoveAbsent(locks[1..], lock.id);
      assert RemoveLockRecord(locks, lock.id) == [] + RemoveLockRecord(locks[1..], lock.id);
      assert RemoveLockRecord(locks, lock.id) == locks[1..];
    } else {
      assert locks[0].id != lock.id by {
        var k :| 0 <= k < |locks| && locks[k] == lock;
        assert k != 0;
      }
      CountPinsRemove(locks[1..], lock);
    }
  }

  lemma {:induction false} RemoveAbsent(locks: seq<LockRecord>, id: LockId)
    requires forall l :: l in locks ==> l.id != id
    ensures RemoveLockRecord(locks, id) == locks
    decreases |locks|
  {
    if locks != [] {
      RemoveAbsent(locks[1..], id);
      assert [locks[0]] + locks[1..] == locks;
    }
  }

  /** A pinned `acquireLock` adds one lock record and one unit of lock count, so
      it keeps the count equal to the number of records on the item. */
  lemma AcquireKeepsPinCount(items: Items, locks: seq<LockRecord>, lock: LockRecord, user: UserId, session: SessionId)
    requires lock.itemId in items
    requires LockCountOf(items, lock.itemId) == CountPins(locks, lock.itemId)
    requires IncrementLockCount(items, lock.itemId).matched
    ensures var after := TryLockUpdate(IncrementLockCount(items, lock.itemId).items, lock.itemId, user, session).items;
      LockCountOf(after, lock.itemId) == CountPins(locks + [lock], lock.itemId)
  {
    CountPinsAppend(locks, lock, lock.itemId);
  }

  /** `releaseLock` of a held lock removes one record and one unit of lock
      count, so it too keeps the two equal. */
  lemma ReleaseKeepsPinCount(items: Items, locks: seq<LockRecord>, lock: LockRecord, now: Timestamp)
    requires lock in locks
    requires forall i, j :: 0 <= i < j < |locks| ==> locks[i].id != locks[j].id
    requires lock.itemId in items
    requires LockCountOf(items, lock.itemId) == CountPins(locks, lock.itemId)
    ensures var after := UnlockUpdate(items, lock.itemId, now).items;
      LockCountOf(after, lock.itemId) == CountPins(RemoveLockRecord(locks, lock.id), lock.itemId)
  {
    CountPinsRemove(locks, lock);
  }

  /** Two lock cycles on a fresh item: the first acquirer wins the transfer,
      which completes; the second acquirer finds the item cached and starts no
      transfer. The download count is 1 at the end and no pin is left. */
  lemma TwoLockCyclesDownloadOnce(id: ItemId, size: nat, user: UserId, s1: SessionId, s2: SessionId, p: Path, t1: Timestamp, t2: Timestamp)
    ensures var items := map[id := Item(size, EmptyDm, map[])];
      var ops := [IncrementOp(id), TryLockOp(id, user, s1), FileDownloadedOp(id, p), UnlockOp(id, t1),
                  IncrementOp(id), TryLockOp(id, user, s2), UnlockOp(id, t2)];
      && MatchedAt(items, ops, 1)
      && !MatchedAt(items, ops, 5)
      && StateAt(items, ops, 7)[id].dm.downloadCount == Some(1)
      && StateAt(items, ops, 7)[id].dm.lockCount == Some(0)
      && StateAt(items, ops, 7)[id].dm.cached == Some(true)
  {
    var items := map[id := Item(size, EmptyDm, map[])];
    var ops := [IncrementOp(id), TryLockOp(id, user, s1), FileDownloadedOp(id, p), UnlockOp(id, t1),
                IncrementOp(id), TryLockOp(id, user, s2), UnlockOp(id, t2)];
    var i1 := Step(items, ops[0]).items;
    assert StateAt(items, ops, 1) == i1;
    assert i1[id].dm.lockCount == Some(1);
    var i2 := Step(i1, ops[1]).items;
    assert StateAt(items, ops, 2) == i2;
    assert i2[id].dm.transferInProgress == Some(true);
    var i3 := Step(i2, ops[2]).items;
    assert StateAt(items, ops, 3) == i3;
    assert i3[id].dm.downloadCount == Some(1) && i3[id].dm.lockCount == Some(1);
    var i4 := Step(i3, ops[3]).items;
    assert StateAt(items, ops, 4) == i4;
    assert i4[id].dm.lockCount == Some(0);
    var i5 := Step(i4, ops[4]).items;
    assert StateAt(items, ops, 5) == i5;
    assert i5[id].dm.lockCount == Some(1) && i5[id].dm.cached == Some(true);
    var i6 := Step(i5, ops[5]).items;
    assert StateAt(items, ops, 6) == i6;
    assert i6[id].dm.downloadCount == Some(1);
    assert StateAt(items, ops, 7) == Step(i6, ops[6]).items;
  }

  /** `unlock` has no guard: unlocking an item whose count is already 0 drives it
      to -1, reports false, and still stamps the unlock time. */
  lemma UnlockBelowZero(items: Items, id: ItemId, now: Timestamp)
    requires id in items && items[id].dm.lockCount == Some(0)
    ensures UnlockUpdate(items, id, now).items[id].dm.lockCount == Some(-1)
    ensures UnlockUpdate(items, id, now).items[id].dm.lastUnlocked == Some(now)
    ensures UnlockUpdate(items, id, now).result == Ok(false)
  {
  }
}
