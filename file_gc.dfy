/** The cache garbage collector (server/lib/file_gc.py): a threshold test, a
    candidate sum, a stable sort by least-recently-unlocked key, and a sweep that
    deletes candidates until the stop threshold is reached. */
module FileGc {
  import opened Base
  import opened Locks
  import opened PathMapper
  import opened FileSystem
  import opened PsInfo

  /** The plugin settings the collector reads: the storage capacity, the start
      and end fractions, and the private storage root. */
  datatype GcSettings = GcSettings(capacity: nat, startFraction: real, endFraction: real, root: string)

  // ---------------------------------------------------------------------------
  // FractionalCollectionThresholds

  /** Collection starts when more than `startFraction` of the capacity is used. */
  predicate ShouldCollect(totalSize: int, usedSize: int, startFraction: real) {
    usedSize as real > totalSize as real * startFraction
  }

  /** Collection stops once what remains is at most `endFraction` of the capacity. */
  predicate ShouldStopCollecting(totalSize: int, initialUsed: int, collected: int, endFraction: real) {
    (initialUsed - collected) as real <= totalSize as real * endFraction
  }

  /** Freeing more never turns a satisfied stop test false. */
  lemma StopIsMonotone(totalSize: int, initialUsed: int, c1: int, c2: int, endFraction: real)
    requires c1 <= c2 && ShouldStopCollecting(totalSize, initialUsed, c1, endFraction)
    ensures ShouldStopCollecting(totalSize, initialUsed, c2, endFraction)
  {
  }

  /** As wired, `PeriodicFileGC.shouldCollect` passes `sizeUsed`, which is the
      capacity, as the used size; so a sweep starts exactly when the capacity is
      positive and the start fraction is below 1, regardless of actual usage. */
  lemma WiredShouldCollect(p: PSInfo, s: GcSettings)
    ensures ShouldCollect(p.TotalSize(s.capacity), p.SizeUsed(s.capacity), s.startFraction)
        <==> s.capacity > 0 && s.startFraction < 1.0
  {
    var c := s.capacity as real;
    var f := s.startFraction;
    assert p.TotalSize(s.capacity) == s.capacity && p.SizeUsed(s.capacity) == s.capacity;
    assert ShouldCollect(s.capacity, s.capacity, f) <==> c > c * f;
    if s.capacity == 0 {
      assert c * f == 0.0;
    } else if f < 1.0 {
      ScaleBelow(c, f);
    } else {
      ScaleAtLeast(c, f);
    }
  }

  lemma ScaleBelow(c: real, f: real)
    requires c > 0.0 && f < 1.0
    ensures c * f < c
  {
    assert c - c * f == c * (1.0 - f);
    assert c * (1.0 - f) > 0.0;
  }

  lemma ScaleAtLeast(c: real, f: real)
    requires c > 0.0 && f >= 1.0
    ensures c * f >= c
  {
    assert c * f - c == c * (f - 1.0);
    assert c * (f - 1.0) >= 0.0;
  }

  // ---------------------------------------------------------------------------
  // LRUSortingScheme

  /** The name the sorting key looks up: a dotted name used as a plain key. */
  const LastUnlockedKey := "dm.lastUnlocked"

  /** `itemSortKey`: the value stored under the literal top-level key
      `dm.lastUnlocked`, or the epoch when there is none. The unlock time that
      `unlock` maintains lives in the nested `dm` sub-document, not under this
      key. */
  function ItemSortKey(doc: ItemDoc): (k: Timestamp)
    ensures LastUnlockedKey !in doc.item.topLevel ==> k == Epoch
    ensures LastUnlockedKey in doc.item.topLevel ==> k == doc.item.topLevel[LastUnlockedKey]
  {
    if LastUnlockedKey in doc.item.topLevel then doc.item.topLevel[LastUnlockedKey] else Epoch
  }

  /** The epoch sorts before every other key. */
  lemma EpochSortsFirst(a: ItemDoc, b: ItemDoc)
    requires LastUnlockedKey !in a.item.topLevel
    ensures ItemSortKey(a) <= ItemSortKey(b)
  {
  }

  predicate SortedByKey(s: seq<ItemDoc>) {
    forall i, j :: 0 <= i < j < |s| ==> ItemSortKey(s[i]) <= ItemSortKey(s[j])
  }

  /** Insert `x` before the first element whose key is not smaller. */
  function Insert(x: ItemDoc, s: seq<ItemDoc>): (r: seq<ItemDoc>)
    ensures |r| == |s| + 1
    ensures multiset(r) == multiset(s) + multiset{x}
    decreases |s|
  {
    if s == [] || ItemSortKey(x) <= ItemSortKey(s[0]) then [x] + s
    else
      assert s == [s[0]] + s[1..];
      [s[0]] + Insert(x, s[1..])
  }

  /** `list.sort(key=itemSortKey)`: Python's sort is stable and ascending. */
  function SortByKey(s: seq<ItemDoc>): (r: seq<ItemDoc>)
    ensures |r| == |s|
    ensures multiset(r) == multiset(s)
    decreases |s|
  {
    if s == [] then []
    else
      assert s == [s[0]] + s[1..];
      Insert(s[0], SortByKey(s[1..]))
  }

  /** The elements of `s` whose key is `k`, in order. */
  function WithKey(s: seq<ItemDoc>, k: Timestamp): seq<ItemDoc>
    decreases |s|
  {
    if s == [] then []
    else (if ItemSortKey(s[0]) == k then [s[0]] else []) + WithKey(s[1..], k)
  }

  lemma {:induction false} InsertSorted(x: ItemDoc, s: seq<ItemDoc>)
    requires SortedByKey(s)
    ensures SortedByKey(Insert(x, s))
    decreases |s|
  {
    if s != [] && ItemSortKey(x) > ItemSortKey(s[0]) {
      InsertSorted(x, s[1..]);
      var r := Insert(x, s[1..]);
      assert forall j :: 0 <= j < |r| ==> ItemSortKey(s[0]) <= ItemSortKey(r[j]) by {
        forall j | 0 <= j < |r| ensures ItemSortKey(s[0]) <= ItemSortKey(r[j]) {
          assert r[j] in multiset(r);
          assert r[j] == x || r[j] in multiset(s[1..]);
          if r[j] != x {
            var m :| 0 <= m < |s[1..]| && s[1..][m] == r[j];
            assert s[m + 1] == r[j];
          }
        }
      }
    }
  }

  lemma {:induction false} InsertWithKey(x: ItemDoc, s: seq<ItemDoc>, k: Timestamp)
    ensures WithKey(Insert(x, s), k) == (if ItemSortKey(x) == k then [x] else []) + WithKey(s, k)
    decreases |s|
  {
    if s == [] || ItemSortKey(x) <= ItemSortKey(s[0]) {
      assert ([x] + s)[1..] == s;
    } else {
      InsertWithKey(x, s[1..], k);
      assert ([s[0]] + Insert(x, s[1..]))[1..] == Insert(x, s[1..]);
    }
  }

  /** The sort orders candidates by ascending key. */
  lemma {:induction false} SortByKeySorted(s: seq<ItemDoc>)
    ensures SortedByKey(SortByKey(s))
    decreases |s|
  {
    if s != [] {
      SortByKeySorted(s[1..]);
      InsertSorted(s[0], SortByKey(s[1..]));
    }
  }

  /** The sort is stable: among candidates with the same key, the order of the
      query result is kept. */
  lemma {:induction false} SortByKeyStable(s: seq<ItemDoc>, k: Timestamp)
    ensures WithKey(SortByKey(s), k) == WithKey(s, k)
    decreases |s|
  {
    if s != [] {
      SortByKeyStable(s[1..], k);
      InsertWithKey(s[0], SortByKey(s[1..]), k);
    }
  }

  /** Documents as the item collection stores them have no top-level key
      `dm.lastUnlocked`, so every key is the epoch and the sort leaves the
      candidates in query order. */
  lemma {:induction false} FlatKeySortIsIdentity(s: seq<ItemDoc>)
    requires forall k :: 0 <= k < |s| ==> LastUnlockedKey !in s[k].item.topLevel
    ensures SortByKey(s) == s
    decreases |s|
  {
    if s != [] {
      FlatKeySortIsIdentity(s[1..]);
      assert [s[0]] + s[1..] == s;
    }
  }

  // ---------------------------------------------------------------------------
  // Sizes

  /** The sum of the `size` fields of the documents. */
  function SumSizes(s: seq<ItemDoc>): nat
    decreases |s|
  {
    if s == [] then 0 else s[0].item.size + SumSizes(s[1..])
  }

  lemma {:induction false} SumSizesSnoc(s: seq<ItemDoc>, x: ItemDoc)
    ensures SumSizes(s + [x]) == SumSizes(s) + x.item.size
    decreases |s|
  {
    if s != [] {
      assert (s + [x])[1..] == s[1..] + [x];
      SumSizesSnoc(s[1..], x);
    }
  }

  lemma {:induction false} SumSizesInsert(x: ItemDoc, s: seq<ItemDoc>)
    ensures SumSizes(Insert(x, s)) == x.item.size + SumSizes(s)
    decreases |s|
  {
    if s != [] && ItemSortKey(x) > ItemSortKey(s[0]) {
      SumSizesInsert(x, s[1..]);
    }
  }

  /** Sorting does not change the total size of the candidates. */
  lemma {:induction false} SumSizesSorted(s: seq<ItemDoc>)
    ensures SumSizes(SortByKey(s)) == SumSizes(s)
    decreases |s|
  {
    if s != [] {
      SumSizesSorted(s[1..]);
      SumSizesInsert(s[0], SortByKey(s[1..]));
    }
  }

  // ---------------------------------------------------------------------------
  // FileGC.deleteFile

  /** The part of the world the collector changes: the item collection and the
      files under the storage root. */
  datatype GcState = GcState(items: Items, files: map<Path, seq<byte>>)

  datatype Deletion = Deleted | NotReserved | Raised(error: Error)

  datatype DeleteResult = DeleteResult(state: GcState, outcome: Deletion)

  /** `deleteFile`: reserve the item for deletion; if that fails, report False
      and change nothing. Otherwise compute the cache path, remove the file and
      mark the item deleted, and release the reservation on every exit path,
      including when computing the path or removing the file raises. */
  function DeleteFileSpec(s: GcState, root: string, id: ItemId): (r: DeleteResult)
    ensures r.outcome == NotReserved <==> !TryLockForDeletionUpdate(s.items, id).matched
    ensures r.outcome == NotReserved ==> r.state == s
    ensures OnlyDmOf(s.items, r.state.items, id)
    ensures r.outcome != NotReserved ==>
      && id in s.items
      && s.items[id].dm.lockCount == Some(0)
      && s.items[id].dm.deleteInProgress != Some(true)
      && r.state.items[id].dm.deleteInProgress == Some(false)
      && r.state.items[id].dm.lockCount == Some(0)
    ensures r.outcome == Deleted ==>
      && GetPSPath(root, id).Ok?
      && r.state.files == s.files - {GetPSPath(root, id).value}
      && GetPSPath(root, id).value in s.files
      && r.state.items[id].dm.cached == Some(false)
      && r.state.items[id].dm.psPath.None?
    ensures r.outcome.Raised? ==>
      && id in s.items
      && r.state.files == s.files
      && r.state.items[id].dm == s.items[id].dm.(deleteInProgress := Some(false))
  {
    var reserve := TryLockForDeletionUpdate(s.items, id);
    if !reserve.matched then DeleteResult(s, NotReserved)
    else
      match GetPSPath(root, id)
      case Err(e) =>
        DeleteResult(GcState(UnlockForDeletionUpdate(reserve.items, id).items, s.files), Raised(e))
      case Ok(path) =>
        if path !in s.files then
          DeleteResult(GcState(UnlockForDeletionUpdate(reserve.items, id).items, s.files),
                       Raised(OSError("No such file or directory: " + path)))
        else
          var deleted := FileDeletedUpdate(reserve.items, id).items;
          DeleteResult(GcState(UnlockForDeletionUpdate(deleted, id).items, s.files - {path}), Deleted)
  }

  /** An item that is pinned (lock count not 0) is never touched by a deletion
      of any item, and neither is its cached file. */
  lemma DeleteSparesPinned(s: GcState, root: string, id: ItemId, x: ItemId)
    requires x in s.items && s.items[x].dm.lockCount != Some(0)
    requires GetPSPath(root, x).Ok? && GetPSPath(root, x).value in s.files
    ensures x in DeleteFileSpec(s, root, id).state.items
    ensures DeleteFileSpec(s, root, id).state.items[x] == s.items[x]
    ensures GetPSPath(root, x).value in DeleteFileSpec(s, root, id).state.files
  {
    if x != id && DeleteFileSpec(s, root, id).outcome == Deleted {
      if GetPSPath(root, id).value == GetPSPath(root, x).value {
        PSPathInjective(root, id, x);
      }
    }
  }

  // ---------------------------------------------------------------------------
  // PeriodicFileGC.collect

  datatype SweepEnd = Stopped(newUsed: int) | Exhausted | Aborted(error: Error)

  /** The end of a sweep, the bytes it freed, and the candidates it deleted,
      in the order it deleted them. */
  datatype SweepResult = SweepResult(state: GcState, end: SweepEnd, collected: nat, deleted: seq<ItemDoc>)

  /** After each of the deletions `deleted[lo..hi]` the stop test still
      failed: what the first `k` deletions had freed, for `lo < k <= hi`, was
      not enough. */
  predicate StillAboveTarget(settings: GcSettings, used: int, deleted: seq<ItemDoc>, lo: nat, hi: nat)
    requires lo <= hi <= |deleted|
  {
    forall k :: lo < k <= hi ==>
      !ShouldStopCollecting(settings.capacity, used, SumSizes(deleted[..k]), settings.endFraction)
  }

  /** One more failed stop test at the front extends the range. */
  lemma StillAboveTargetExtend(settings: GcSettings, used: int, deleted: seq<ItemDoc>, lo: nat, hi: nat)
    requires lo < hi <= |deleted|
    requires StillAboveTarget(settings, used, deleted, lo + 1, hi)
    requires !ShouldStopCollecting(settings.capacity, used, SumSizes(deleted[..lo + 1]), settings.endFraction)
    ensures StillAboveTarget(settings, used, deleted, lo, hi)
  {
  }

  /** The delete loop over the sorted candidates, having deleted `deleted`
      (freeing `collected` bytes) so far: each candidate whose deletion
      succeeds adds its size; the sweep ends at the first such deletion after
      which the stop test holds, or when the candidates run out, or when a
      deletion raises. `SweepAccounts` and `SweepStopsAtFirst` state what it
      deletes and where it stops. */
  function Sweep(s: GcState, cands: seq<ItemDoc>, settings: GcSettings, used: int, collected: nat,
                 deleted: seq<ItemDoc>): (r: SweepResult)
    requires collected == SumSizes(deleted)
    ensures cands == [] ==> r == SweepResult(s, Exhausted, collected, deleted)
    decreases |cands|
  {
    if cands == [] then SweepResult(s, Exhausted, collected, deleted)
    else
      var d := DeleteFileSpec(s, settings.root, cands[0].id);
      match d.outcome
      case Raised(e) => SweepResult(d.state, Aborted(e), collected, deleted)
      case NotReserved => Sweep(d.state, cands[1..], settings, used, collected, deleted)
      case Deleted =>
        var c := collected + cands[0].item.size;
        SumSizesSnoc(deleted, cands[0]);
        if ShouldStopCollecting(settings.capacity, used, c, settings.endFraction) then
          SweepResult(d.state, Stopped(used - c), c, deleted + [cands[0]])
        else Sweep(d.state, cands[1..], settings, used, c, deleted + [cands[0]])
  }

  /** One step of the sweep, when the first candidate's deletion raises: the
      sweep aborts with that error. */
  lemma SweepRaised(s: GcState, cands: seq<ItemDoc>, settings: GcSettings, used: int, collected: nat,
                    deleted: seq<ItemDoc>)
    requires cands != [] && collected == SumSizes(deleted)
    requires DeleteFileSpec(s, settings.root, cands[0].id).outcome.Raised?
    ensures var d := DeleteFileSpec(s, settings.root, cands[0].id);
      Sweep(s, cands, settings, used, collected, deleted) == SweepResult(d.state, Aborted(d.outcome.error), collected, deleted)
  {
  }

  /** One step of the sweep, when the first candidate could not be reserved:
      the sweep goes on with the rest. */
  lemma SweepSkipped(s: GcState, cands: seq<ItemDoc>, settings: GcSettings, used: int, collected: nat,
                     deleted: seq<ItemDoc>)
    requires cands != [] && collected == SumSizes(deleted)
    requires DeleteFileSpec(s, settings.root, cands[0].id).outcome == NotReserved
    ensures Sweep(s, cands, settings, used, collected, deleted) == Sweep(s, cands[1..], settings, used, collected, deleted)
  {
  }

  /** One step of the sweep, when the first candidate was deleted: its size
      is added, and the sweep stops there exactly when the stop test holds. */
  lemma SweepDeleted(s: GcState, cands: seq<ItemDoc>, settings: GcSettings, used: int, collected: nat,
                     deleted: seq<ItemDoc>)
    requires cands != [] && collected == SumSizes(deleted)
    requires DeleteFileSpec(s, settings.root, cands[0].id).outcome == Deleted
    ensures var d := DeleteFileSpec(s, settings.root, cands[0].id);
      var c := collected + cands[0].item.size;
      && c == SumSizes(deleted + [cands[0]])
      && Sweep(s, cands, settings, used, collected, deleted)
         == if ShouldStopCollecting(settings.capacity, used, c, settings.endFraction)
            then SweepResult(d.state, Stopped(used - c), c, deleted + [cands[0]])
            else Sweep(d.state, cands[1..], settings, used, c, deleted + [cands[0]])
  {
    SumSizesSnoc(deleted, cands[0]);
  }

  /** A sweep only appends to the deleted list, and only candidates it was
      given. */
  lemma {:induction false} SweepExtends(s: GcState, cands: seq<ItemDoc>, settings: GcSettings, used: int,
                                        collected: nat, deleted: seq<ItemDoc>)
    requires collected == SumSizes(deleted)
    ensures var r := Sweep(s, cands, settings, used, collected, deleted);
      && deleted <= r.deleted
      && (forall k :: |deleted| <= k < |r.deleted| ==> r.deleted[k] in cands)
    decreases |cands|
  {
    if cands != [] {
      var d := DeleteFileSpec(s, settings.root, cands[0].id);
      assert forall x :: x in cands[1..] ==> x in cands;
      SumSizesSnoc(deleted, cands[0]);
      if d.outcome == NotReserved {
        SweepExtends(d.state, cands[1..], settings, used, collected, deleted);
      } else if d.outcome == Deleted {
        var c := collected + cands[0].item.size;
        if !ShouldStopCollecting(settings.capacity, used, c, settings.endFraction) {
          SweepExtends(d.state, cands[1..], settings, used, c, deleted + [cands[0]]);
        }
      }
    }
  }

  /** `collected` is always what the deleted candidates held, and a sweep
      frees at most what its candidates hold. */
  lemma {:induction false} SweepCollects(s: GcState, cands: seq<ItemDoc>, settings: GcSettings, used: int,
                                         collected: nat, deleted: seq<ItemDoc>)
    requires collected == SumSizes(deleted)
    ensures var r := Sweep(s, cands, settings, used, collected, deleted);
      && r.collected == SumSizes(r.deleted)
      && collected <= r.collected <= collected + SumSizes(cands)
    decreases |cands|
  {
    if cands != [] {
      var d := DeleteFileSpec(s, settings.root, cands[0].id);
      assert SumSizes(cands) == cands[0].item.size + SumSizes(cands[1..]);
      SumSizesSnoc(deleted, cands[0]);
      if d.outcome == NotReserved {
        SweepCollects(d.state, cands[1..], settings, used, collected, deleted);
      } else if d.outcome == Deleted {
        var c := collected + cands[0].item.size;
        if !ShouldStopCollecting(settings.capacity, used, c, settings.endFraction) {
          SweepCollects(d.state, cands[1..], settings, used, c, deleted + [cands[0]]);
        }
      }
    }
  }

  /** A sweep that reports Stopped stopped at the first deletion after which
      the stop test held: the test holds for what it freed, the new usage is
      the rest, and the test failed after every earlier deletion of this
      sweep. */
  lemma {:induction false} SweepStopsAtFirst(s: GcState, cands: seq<ItemDoc>, settings: GcSettings, used: int,
                                             collected: nat, deleted: seq<ItemDoc>)
    requires collected == SumSizes(deleted)
    ensures var r := Sweep(s, cands, settings, used, collected, deleted);
      r.end.Stopped? ==>
        && |deleted| < |r.deleted|
        && r.end.newUsed == used - r.collected
        && ShouldStopCollecting(settings.capacity, used, r.collected, settings.endFraction)
        && StillAboveTarget(settings, used, r.deleted, |deleted|, |r.deleted| - 1)
    decreases |cands|
  {
    if cands != [] {
      var d := DeleteFileSpec(s, settings.root, cands[0].id);
      SumSizesSnoc(deleted, cands[0]);
      if d.outcome == NotReserved {
        SweepStopsAtFirst(d.state, cands[1..], settings, used, collected, deleted);
      } else if d.outcome == Deleted {
        var c := collected + cands[0].item.size;
        var deleted' := deleted + [cands[0]];
        if !ShouldStopCollecting(settings.capacity, used, c, settings.endFraction) {
          var r := Sweep(d.state, cands[1..], settings, used, c, deleted');
          SweepStopsAtFirst(d.state, cands[1..], settings, used, c, deleted');
          if r.end.Stopped? {
            SweepExtends(d.state, cands[1..], settings, used, c, deleted');
            assert r.deleted[..|deleted| + 1] == deleted';
            StillAboveTargetExtend(settings, used, r.deleted, |deleted|, |r.deleted| - 1);
          }
        }
      }
    }
  }

  /** A sweep that does not report Stopped never reached the stop test: it
      failed after every deletion the sweep made. */
  lemma {:induction false} SweepNeverStopped(s: GcState, cands: seq<ItemDoc>, settings: GcSettings, used: int,
                                             collected: nat, deleted: seq<ItemDoc>)
    requires collected == SumSizes(deleted)
    ensures var r := Sweep(s, cands, settings, used, collected, deleted);
      && |deleted| <= |r.deleted|
      && (!r.end.Stopped? ==> StillAboveTarget(settings, used, r.deleted, |deleted|, |r.deleted|))
    decreases |cands|
  {
    SweepExtends(s, cands, settings, used, collected, deleted);
    if cands != [] {
      var d := DeleteFileSpec(s, settings.root, cands[0].id);
      SumSizesSnoc(deleted, cands[0]);
      if d.outcome == NotReserved {
        SweepNeverStopped(d.state, cands[1..], settings, used, collected, deleted);
      } else if d.outcome == Deleted {
        var c := collected + cands[0].item.size;
        var deleted' := deleted + [cands[0]];
        if !ShouldStopCollecting(settings.capacity, used, c, settings.endFraction) {
          var r := Sweep(d.state, cands[1..], settings, used, c, deleted');
          SweepNeverStopped(d.state, cands[1..], settings, used, c, deleted');
          if !r.end.Stopped? {
            SweepExtends(d.state, cands[1..], settings, used, c, deleted');
            assert r.deleted[..|deleted| + 1] == deleted';
            StillAboveTargetExtend(settings, used, r.deleted, |deleted|, |r.deleted|);
          }
        }
      }
    }
  }

  /** A sweep never changes a pinned item and never removes its file. */
  lemma {:induction false} SweepSparesPinned(s: GcState, cands: seq<ItemDoc>, settings: GcSettings, used: int,
                                             collected: nat, deleted: seq<ItemDoc>, x: ItemId)
    requires collected == SumSizes(deleted)
    requires x in s.items && s.items[x].dm.lockCount != Some(0)
    requires GetPSPath(settings.root, x).Ok? && GetPSPath(settings.root, x).value in s.files
    ensures x in Sweep(s, cands, settings, used, collected, deleted).state.items
    ensures Sweep(s, cands, settings, used, collected, deleted).state.items[x] == s.items[x]
    ensures GetPSPath(settings.root, x).value in Sweep(s, cands, settings, used, collected, deleted).state.files
    decreases |cands|
  {
    if cands != [] {
      var d := DeleteFileSpec(s, settings.root, cands[0].id);
      DeleteSparesPinned(s, settings.root, cands[0].id, x);
      if d.outcome == Deleted {
        SumSizesSnoc(deleted, cands[0]);
        SweepSparesPinned(d.state, cands[1..], settings, used, collected + cands[0].item.size, deleted + [cands[0]], x);
      } else if d.outcome == NotReserved {
        SweepSparesPinned(d.state, cands[1..], settings, used, collected, deleted, x);
      }
    }
  }

  /** What one run of `collect` does: the new world, the usage record, the
      outcome, and the candidates deleted in order. `candidates` is the result
      of the candidate query, in the order the store returned it. */
  datatype CollectResult = CollectResult(state: GcState, usageRecord: Option<int>, outcome: Result<bool>, deleted: seq<ItemDoc>)

  /** The outcome of `collect` once the sweep over `used` bytes has ended:
      the new usage is recorded only when the stop test was reached. */
  function AfterSweep(sweep: SweepResult, usageRecord: Option<int>): (r: CollectResult)
    ensures r.state == sweep.state && r.deleted == sweep.deleted
    ensures r.outcome == Ok(true) <==> sweep.end.Stopped?
    ensures sweep.end.Stopped? ==> r.usageRecord == UpdatedRecord(usageRecord, sweep.end.newUsed)
    ensures !sweep.end.Stopped? ==> r.usageRecord == usageRecord
    ensures sweep.end.Aborted? ==> r.outcome == Err(sweep.end.error)
  {
    match sweep.end
    case Stopped(newUsed) => CollectResult(sweep.state, UpdatedRecord(usageRecord, newUsed), Ok(true), sweep.deleted)
    case Exhausted => CollectResult(sweep.state, usageRecord, Ok(false), sweep.deleted)
    case Aborted(e) => CollectResult(sweep.state, usageRecord, Err(e), sweep.deleted)
  }

  /** `collect` on the candidate listing, sorted by the strategy's key: no
      sweep at all while the start test fails; otherwise the sweep over the
      sorted candidates, starting from their total size. What it deletes and
      records is stated by `CollectDeletesCandidates`, `CollectStopsAtFirst`
      and `CollectNeverStopped`. */
  function CollectSpec(s: GcState, usageRecord: Option<int>, candidates: seq<ItemDoc>, settings: GcSettings): (r: CollectResult)
    ensures !ShouldCollect(settings.capacity, settings.capacity, settings.startFraction) ==>
      r == CollectResult(s, usageRecord, Ok(false), [])
  {
    if !ShouldCollect(settings.capacity, settings.capacity, settings.startFraction) then
      CollectResult(s, usageRecord, Ok(false), [])
    else
      AfterSweep(Sweep(s, SortByKey(candidates), settings, SumSizes(candidates), 0, []), usageRecord)
  }

  /** `collect` deletes only candidates, and frees at most what they hold. */
  lemma CollectDeletesCandidates(s: GcState, usageRecord: Option<int>, candidates: seq<ItemDoc>, settings: GcSettings)
    ensures var r := CollectSpec(s, usageRecord, candidates, settings);
      && (forall d :: d in r.deleted ==> d in candidates)
      && SumSizes(r.deleted) <= SumSizes(candidates)
  {
    if ShouldCollect(settings.capacity, settings.capacity, settings.startFraction) {
      var sorted := SortByKey(candidates);
      SumSizesSorted(candidates);
      var sweep := Sweep(s, sorted, settings, SumSizes(candidates), 0, []);
      SweepExtends(s, sorted, settings, SumSizes(candidates), 0, []);
      SweepCollects(s, sorted, settings, SumSizes(candidates), 0, []);
      forall d | d in sweep.deleted ensures d in candidates {
        assert d in sorted;
        assert d in multiset(sorted);
      }
    }
  }

  /** When `collect` reports that it reached the stop test, it deleted at
      least one candidate, the usage record becomes the total size minus what
      the deleted candidates held, the stop test holds for that amount, and it
      failed after every earlier deletion: no more was deleted than needed. */
  lemma CollectStopsAtFirst(s: GcState, usageRecord: Option<int>, candidates: seq<ItemDoc>, settings: GcSettings)
    ensures var r := CollectSpec(s, usageRecord, candidates, settings);
      r.outcome == Ok(true) ==>
        && r.deleted != []
        && r.usageRecord == UpdatedRecord(usageRecord, SumSizes(candidates) - SumSizes(r.deleted))
        && ShouldStopCollecting(settings.capacity, SumSizes(candidates), SumSizes(r.deleted), settings.endFraction)
        && StillAboveTarget(settings, SumSizes(candidates), r.deleted, 0, |r.deleted| - 1)
  {
    if ShouldCollect(settings.capacity, settings.capacity, settings.startFraction) {
      var sorted := SortByKey(candidates);
      SweepCollects(s, sorted, settings, SumSizes(candidates), 0, []);
      SweepStopsAtFirst(s, sorted, settings, SumSizes(candidates), 0, []);
    }
  }

  /** When `collect` does not report that it reached the stop test, the usage
      record is unchanged and the test failed after every deletion it made. */
  lemma CollectNeverStopped(s: GcState, usageRecord: Option<int>, candidates: seq<ItemDoc>, settings: GcSettings)
    ensures var r := CollectSpec(s, usageRecord, candidates, settings);
      r.outcome != Ok(true) ==>
        && r.usageRecord == usageRecord
        && StillAboveTarget(settings, SumSizes(candidates), r.deleted, 0, |r.deleted|)
  {
    if ShouldCollect(settings.capacity, settings.capacity, settings.startFraction) {
      SweepNeverStopped(s, SortByKey(candidates), settings, SumSizes(candidates), 0, []);
    }
  }

  /** `collect` as written: once the start test holds, the candidates are the
      cursor the item query returned, and calling `sort(key=...)` on it raises
      TypeError, because a cursor's `sort` takes no `key` argument. Nothing is
      deleted and the usage record is not updated. */
  function CollectAsWritten(s: GcState, usageRecord: Option<int>, candidates: seq<ItemDoc>, settings: GcSettings): (r: CollectResult)
    ensures r.state == s && r.usageRecord == usageRecord && r.deleted == []
    ensures r.outcome.Err? <==> ShouldCollect(settings.capacity, settings.capacity, settings.startFraction)
    ensures r.outcome.Ok? ==> r == CollectSpec(s, usageRecord, candidates, settings)
  {
    if !ShouldCollect(settings.capacity, settings.capacity, settings.startFraction) then
      CollectResult(s, usageRecord, Ok(false), [])
    else
      CollectResult(s, usageRecord, Err(TypeError("sort() got an unexpected keyword argument 'key'")), [])
  }

  /** `candidates` lists each collectable item of `items` (cached, lock count
      present and 0) and nothing else, in some order. */
  ghost predicate CandidateList(items: Items, candidates: seq<ItemDoc>) {
    forall d: ItemDoc :: d in candidates <==> d.id in items && d.item == items[d.id] && Collectable(d.item)
  }

  /** The collector as `PeriodicFileGC` wires it: the lock store, the disk, the
      usage record, and the settings it reads on each run. */
  class PeriodicFileGC {
    const lockModel: LockModel
    const disk: Disk
    const psInfo: PSInfo

    constructor(lockModel: LockModel, disk: Disk, psInfo: PSInfo)
      ensures this.lockModel == lockModel && this.disk == disk && this.psInfo == psInfo
    {
      this.lockModel := lockModel;
      this.disk := disk;
      this.psInfo := psInfo;
    }

    function State(): GcState
      reads this, lockModel, disk
    {
      GcState(lockModel.items, disk.files)
    }

    /** `FileGC.deleteFile`, with its try/finally. */
    method DeleteFile(itemId: ItemId, root: string) returns (r: Result<bool>)
      modifies lockModel, disk
      ensures var d := DeleteFileSpec(old(State()), root, itemId);
        && State() == d.state
        && r == (match d.outcome
                 case Deleted => Ok(true)
                 case NotReserved => Ok(false)
                 case Raised(e) => Err(e))
      ensures lockModel.locks == old(lockModel.locks) && lockModel.nextLockId == old(lockModel.nextLockId)
    {
      var reserved := lockModel.TryLockForDeletion(itemId);
      if !reserved {
        return Ok(false);
      }
      var path := GetPSPath(root, itemId);
      if path.Err? {
        lockModel.UnlockForDeletion(itemId);
        return Err(path.error);
      }
      var removed := disk.Remove(path.value);
      if removed.Err? {
        lockModel.UnlockForDeletion(itemId);
        return Err(removed.error);
      }
      lockModel.FileDeleted(itemId);
      lockModel.UnlockForDeletion(itemId);
      return Ok(true);
    }

    /** `FileGC.unreacheable`: the collector is told that an item is no longer
        pinned, and does nothing with it (it has no `modifies` clause). */
    method Unreacheable(itemId: ItemId)
    {
    }

    /** `collect`: `Ok(true)` when the sweep reached the stop threshold,
        `Ok(false)` when no sweep ran or the candidates ran out, and the error
        when a deletion raised. */
    method Collect(settings: GcSettings) returns (r: Result<bool>)
      modifies lockModel, disk, psInfo
      ensures !ShouldCollect(settings.capacity, settings.capacity, settings.startFraction) ==>
        State() == old(State()) && psInfo.record == old(psInfo.record) && r == Ok(false)
      ensures ShouldCollect(settings.capacity, settings.capacity, settings.startFraction) ==>
        exists candidates: seq<ItemDoc> ::
          && CandidateList(old(lockModel.items), candidates)
          && var c := CollectSpec(old(State()), old(psInfo.record), candidates, settings);
             State() == c.state && psInfo.record == c.usageRecord && r == c.outcome
      ensures lockModel.locks == old(lockModel.locks) && lockModel.nextLockId == old(lockModel.nextLockId)
    {
      ghost var start := State();
      ghost var record := psInfo.record;
      if !ShouldCollect(psInfo.TotalSize(settings.capacity), psInfo.SizeUsed(settings.capacity), settings.startFraction) {
        return Ok(false);
      }
      var candidates := lockModel.GetCollectionCandidates();
      var used := 0;
      for i := 0 to |candidates|
        invariant used == SumSizes(candidates[..i])
        invariant unchanged(lockModel, disk, psInfo)
      {
        SumSizesSnoc(candidates[..i], candidates[i]);
        assert candidates[..i + 1] == candidates[..i] + [candidates[i]];
        used := used + candidates[i].item.size;
      }
      assert candidates[..|candidates|] == candidates;
      assert CandidateList(start.items, candidates);
      var sorted := SortByKey(candidates);
      SumSizesSorted(candidates);
      r := DeleteInOrder(sorted, settings, used);
    }

    /** The delete loop of `collect` over the sorted candidates, given their
        total size `used`. */
    method DeleteInOrder(sorted: seq<ItemDoc>, settings: GcSettings, used: int) returns (r: Result<bool>)
      modifies lockModel, disk, psInfo
      ensures var w := Sweep(old(State()), sorted, settings, used, 0, []);
        && State() == w.state
        && psInfo.record == (if w.end.Stopped? then UpdatedRecord(old(psInfo.record), w.end.newUsed) else old(psInfo.record))
        && r == (match w.end
                 case Stopped(_) => Ok(true)
                 case Exhausted => Ok(false)
                 case Aborted(e) => Err(e))
      ensures lockModel.locks == old(lockModel.locks) && lockModel.nextLockId == old(lockModel.nextLockId)
    {
      ghost var whole := Sweep(State(), sorted, settings, used, 0, []);
      var collected: nat := 0;
      ghost var deleted: seq<ItemDoc> := [];
      var i := 0;
      while i < |sorted|
        invariant 0 <= i <= |sorted|
        invariant collected == SumSizes(deleted)
        invariant psInfo.record == old(psInfo.record)
        invariant lockModel.locks == old(lockModel.locks) && lockModel.nextLockId == old(lockModel.nextLockId)
        invariant Sweep(State(), sorted[i..], settings, used, collected, deleted) == whole
      {
        ghost var before := State();
        ghost var step := DeleteFileSpec(before, settings.root, sorted[i].id);
        ghost var rest := sorted[i..];
        assert rest[0] == sorted[i] && rest[1..] == sorted[i + 1..];
        var d := DeleteFile(sorted[i].id, settings.root);
        if d.Err? {
          SweepRaised(before, rest, settings, used, collected, deleted);
          return Err(d.error);
        }
        if d.value {
          SweepDeleted(before, rest, settings, used, collected, deleted);
          collected := collected + sorted[i].item.size;
          deleted := deleted + [sorted[i]];
          if ShouldStopCollecting(psInfo.TotalSize(settings.capacity), used, collected, settings.endFraction) {
            psInfo.UpdateInfo(used - collected);
            return Ok(true);
          }
        } else {
          SweepSkipped(before, rest, settings, used, collected, deleted);
        }
        i := i + 1;
      }
      assert sorted[i..] == [];
      return Ok(false);
    }
  }

  /** The sweep of the two-object case: the first deletion frees 10 of the
      20 bytes, which meets the stop test. */
  lemma TwoObjectsSweep(s: GcState, a: ItemDoc, b: ItemDoc, root: string)
    requires a.id in s.items && a.item == s.items[a.id] && a.item.size == 10
    requires Collectable(a.item) && a.item.dm.deleteInProgress != Some(true)
    requires GetPSPath(root, a.id).Ok? && GetPSPath(root, a.id).value in s.files
    ensures Sweep(s, [a, b], GcSettings(22, 0.5, 0.5, root), 20, 0, [])
         == SweepResult(DeleteFileSpec(s, root, a.id).state, Stopped(10), 10, [a])
  {
    var settings := GcSettings(22, 0.5, 0.5, root);
    var d := DeleteFileSpec(s, root, a.id);
    assert d.outcome == Deleted;
    assert ShouldStopCollecting(22, 20, 10, 0.5);
    SweepDeleted(s, [a, b], settings, 20, 0, []);
    assert [] + [a] == [a];
  }

  /** The collect of the two-object case: the sweep over the sorted
      candidates is the one of `TwoObjectsSweep`, and it reached the stop
      test. */
  lemma TwoObjectsCollect(s: GcState, a: ItemDoc, b: ItemDoc, root: string)
    requires a.id in s.items && a.item == s.items[a.id] && a.item.size == 10 && b.item.size == 10
    requires Collectable(a.item) && a.item.dm.deleteInProgress != Some(true)
    requires LastUnlockedKey !in a.item.topLevel && LastUnlockedKey !in b.item.topLevel
    requires GetPSPath(root, a.id).Ok? && GetPSPath(root, a.id).value in s.files
    ensures CollectSpec(s, Some(0), [a, b], GcSettings(22, 0.5, 0.5, root))
         == CollectResult(DeleteFileSpec(s, root, a.id).state, Some(10), Ok(true), [a])
  {
    FlatKeySortIsIdentity([a, b]);
    assert SumSizes([a, b]) == 20 by {
      assert [a, b][1..] == [b] && [b][1..] == [];
      assert SumSizes([b]) == 10;
    }
    assert ShouldCollect(22, 22, 0.5);
    TwoObjectsSweep(s, a, b, root);
  }

  /** The two-object case, in units of 10 bytes: capacity 22, two cached,
      unpinned objects of size 10, both fractions 0.5. The first candidate is
      evicted and the sweep stops with 10 recorded as used; the second stays
      cached with its file in place. */
  lemma TwoObjectsOneEvicted(s: GcState, a: ItemDoc, b: ItemDoc, root: string)
    requires a.id != b.id && a.id in s.items && b.id in s.items
    requires a.item == s.items[a.id] && b.item == s.items[b.id]
    requires a.item.size == 10 && b.item.size == 10
    requires Collectable(a.item) && a.item.dm.deleteInProgress != Some(true)
    requires LastUnlockedKey !in a.item.topLevel && LastUnlockedKey !in b.item.topLevel
    requires GetPSPath(root, a.id).Ok? && GetPSPath(root, a.id).value in s.files
    requires GetPSPath(root, b.id).Ok? && GetPSPath(root, b.id).value in s.files
    ensures var r := CollectSpec(s, Some(0), [a, b], GcSettings(22, 0.5, 0.5, root));
      && r.outcome == Ok(true)
      && r.usageRecord == Some(10)
      && GetPSPath(root, a.id).value !in r.state.files
      && a.id in r.state.items && r.state.items[a.id].dm.cached == Some(false)
      && b.id in r.state.items && r.state.items[b.id] == s.items[b.id]
      && GetPSPath(root, b.id).value in r.state.files
      && r.deleted == [a]
  {
    TwoObjectsCollect(s, a, b, root);
    var d := DeleteFileSpec(s, root, a.id);
    assert d.outcome == Deleted;
    if GetPSPath(root, a.id).value == GetPSPath(root, b.id).value {
      PSPathInjective(root, a.id, b.id);
    }
  }

  /** On the two-object case the collector as written raises TypeError and
      deletes nothing, while the intended collect frees the first object. */
  lemma CursorSortBlocksCollection(s: GcState, a: ItemDoc, b: ItemDoc, root: string)
    requires a.id != b.id && a.id in s.items && b.id in s.items
    requires a.item == s.items[a.id] && b.item == s.items[b.id]
    requires a.item.size == 10 && b.item.size == 10
    requires Collectable(a.item) && a.item.dm.deleteInProgress != Some(true)
    requires LastUnlockedKey !in a.item.topLevel && LastUnlockedKey !in b.item.topLevel
    requires GetPSPath(root, a.id).Ok? && GetPSPath(root, a.id).value in s.files
    requires GetPSPath(root, b.id).Ok? && GetPSPath(root, b.id).value in s.files
    ensures var settings := GcSettings(22, 0.5, 0.5, root);
      var w := CollectAsWritten(s, Some(0), [a, b], settings);
      var c := CollectSpec(s, Some(0), [a, b], settings);
      && w.outcome.Err? && w.outcome.error.TypeError?
      && w.state == s && w.deleted == []
      && c.state != s && c.deleted == [a]
  {
    TwoObjectsOneEvicted(s, a, b, root);
    assert ShouldCollect(22, 22, 0.5);
  }
}
