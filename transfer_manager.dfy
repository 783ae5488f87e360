/** The transfer manager (server/lib/transfer_manager.py): restarting the
    transfers a restart interrupted, choosing a handler for an item, and the
    Girder download copy loop. Girder lookups (users, item paths, child files,
    assetstore paths) are a fixed view `Girder`. */
module TransferManager {
  import opened Base
  import opened Locks
  import opened Transfers
  import opened TmUtils
  import opened HandlerFactory
  import opened PathMapper
  import opened FileSystem

  /** What Girder answers to the lookups the manager makes. */
  datatype Girder = Girder(
    /** The ids `userModel.load` finds. */
    users: set<UserId>,
    /** `getPathFromRoot` per item; an item not in the map raises KeyError. */
    itemPaths: map<ItemId, Result<Path>>,
    /** `childFiles` per item; an item not in the map is not found. */
    itemFiles: map<ItemId, seq<FileDoc>>,
    /** The assetstore adapter's full path of a file, by assetstore id; None
        when loading the store or its adapter raised an error that is swallowed. */
    storePaths: map<string, Option<string>>)
  {
    function PathOf(itemId: ItemId): Result<Path> {
      if itemId in itemPaths then itemPaths[itemId] else Err(KeyError(itemId))
    }
  }

  // --- restartInterruptedTransfers: the restart list --------------------------------

  /** One entry of the restart list. */
  datatype RestartEntry = RestartEntry(itemId: ItemId, ownerId: UserId, sessionId: SessionId)

  /** The entry for an in-progress item, read from `dm.transfer`; a missing
      field raises KeyError. */
  function ItemEntry(d: ItemDoc): (r: Result<RestartEntry>)
    ensures r.Ok? <==> d.item.dm.transferUserId.Some? && d.item.dm.transferSessionId.Some?
    ensures r.Ok? ==> r.value == RestartEntry(d.id, d.item.dm.transferUserId.value, d.item.dm.transferSessionId.value)
    ensures d.item.dm.transferUserId.None? ==> r == Err(KeyError("userId"))
    ensures d.item.dm.transferUserId.Some? && d.item.dm.transferSessionId.None? ==> r == Err(KeyError("sessionId"))
  {
    match d.item.dm.transferUserId
    case None => Err(KeyError("userId"))
    case Some(u) =>
      match d.item.dm.transferSessionId
      case None => Err(KeyError("sessionId"))
      case Some(s) => Ok(RestartEntry(d.id, u, s))
  }

  /** The entries of the in-progress items, in order; the first item with a
      missing field stops the whole list. */
  function ItemEntries(docs: seq<ItemDoc>): (r: Result<seq<RestartEntry>>)
    ensures r.Ok? <==> forall k :: 0 <= k < |docs| ==> ItemEntry(docs[k]).Ok?
    ensures r.Ok? ==> |r.value| == |docs| && forall k :: 0 <= k < |docs| ==> r.value[k] == ItemEntry(docs[k]).value
    ensures r.Err? ==> r.error.KeyError?
    decreases |docs|
  {
    if docs == [] then Ok([])
    else
      var prefix := docs[..|docs| - 1];
      match ItemEntries(prefix)
      case Err(e) => Err(e)
      case Ok(es) =>
        match ItemEntry(docs[|docs| - 1])
        case Err(e) => Err(e)
        case Ok(x) => Ok(es + [x])
  }

  function ItemIds(docs: seq<ItemDoc>): set<ItemId> {
    set d | d in docs :: d.id
  }

  function TransferEntry(t: TransferRecord): RestartEntry {
    RestartEntry(t.itemId, t.ownerId, t.sessionId)
  }

  /** The transfer records whose item is not already in the list, in order. */
  function Unclaimed(ids: set<ItemId>, active: seq<TransferRecord>): (r: seq<RestartEntry>)
    ensures forall k :: 0 <= k < |r| ==> r[k].itemId !in ids
    ensures forall t :: t in active && t.itemId !in ids ==> TransferEntry(t) in r
    ensures forall e :: e in r ==> exists t :: t in active && e == TransferEntry(t)
    decreases |active|
  {
    if active == [] then []
    else
      var prefix := active[..|active| - 1];
      var t := active[|active| - 1];
      var r := Unclaimed(ids, prefix);
      assert forall x :: x in prefix ==> x in active;
      if t.itemId in ids then r else r + [TransferEntry(t)]
  }

  /** The restart list: every in-progress item (owner and session from its
      `dm.transfer`), then each transfer record whose item is not among them. */
  function RestartList(docs: seq<ItemDoc>, active: seq<TransferRecord>): (r: Result<seq<RestartEntry>>)
    ensures r.Ok? <==> ItemEntries(docs).Ok?
    ensures r.Ok? ==> |docs| <= |r.value|
    ensures r.Ok? ==> forall k :: 0 <= k < |docs| ==> r.value[k] == ItemEntry(docs[k]).value
    ensures r.Ok? ==> forall t :: t in active && t.itemId !in ItemIds(docs) ==> TransferEntry(t) in r.value[|docs|..]
  {
    match ItemEntries(docs)
    case Err(e) => Err(e)
    case Ok(es) => Ok(es + Unclaimed(ItemIds(docs), active))
  }

  /** An in-progress item never appears a second time through the transfer
      records. */
  lemma RestartListNoDuplicateItem(docs: seq<ItemDoc>, active: seq<TransferRecord>, i: nat, j: nat)
    requires RestartList(docs, active).Ok?
    requires i < |docs| <= j < |RestartList(docs, active).value|
    ensures RestartList(docs, active).value[i].itemId != RestartList(docs, active).value[j].itemId
  {
    var es := ItemEntries(docs).value;
    var u := Unclaimed(ItemIds(docs), active);
    var r := RestartList(docs, active).value;
    assert r == es + u;
    assert r[j] == u[j - |docs|];
    assert r[i].itemId == docs[i].id;
    assert docs[i] in docs;
  }

  // --- getTransferHandler: choosing a handler ---------------------------------------

  /** The source URL of a file: its `linkUrl`, else its `path` when imported,
      else the assetstore's full path for it; lookup errors give no URL. */
  function SourceUrl(file: FileDoc, storePaths: map<string, Option<string>>): (r: Result<Option<string>>)
    ensures file.linkUrl.Some? ==> r == Ok(file.linkUrl)
    ensures file.linkUrl.None? && file.imported ==>
      r == (if file.path.Some? then Ok(file.path) else Err(KeyError("path")))
    ensures file.linkUrl.None? && !file.imported && file.assetstoreId.Some? ==>
      r == Ok(if file.assetstoreId.value in storePaths then storePaths[file.assetstoreId.value] else None)
    ensures file.linkUrl.None? && !file.imported && file.assetstoreId.None? ==> r == Ok(None)
  {
    if file.linkUrl.Some? then Ok(file.linkUrl)
    else if file.imported then
      (if file.path.Some? then Ok(file.path) else Err(KeyError("path")))
    else if file.assetstoreId.Some? then
      Ok(if file.assetstoreId.value in storePaths then storePaths[file.assetstoreId.value] else None)
    else Ok(None)
  }

  /** The handler started for a transfer: a URL handler from the factory, or
      a download from Girder's own storage. */
  datatype ChosenHandler =
    | UrlHandler(handler: Handler)
    | GirderDownload(transferId: TransferId, itemId: ItemId, psPath: Path)
  {
    function TransferIdOf(): TransferId {
      match this
      case UrlHandler(h) => h.transferId
      case GirderDownload(id, _, _) => id
    }
  }

  /** The last step of `getTransferHandler`: a non-empty URL needs a `size` on
      the file and goes to the factory; no URL (or an empty one) means a Girder
      download. */
  function ChooseHandler(url: Option<string>, file: FileDoc, transferId: TransferId, itemId: ItemId, psPath: Path)
    : (r: Result<ChosenHandler>)
    ensures (url.None? || url.value == "") ==> r == Ok(GirderDownload(transferId, itemId, psPath))
    ensures url.Some? && url.value != "" && file.size.None? ==>
      r == Err(ValueError("File " + file.id + " must have a size attribute."))
    ensures url.Some? && url.value != "" && file.size.Some? ==>
      match GetURLTransferHandler(url, transferId, itemId, psPath)
      case Ok(h) => r == Ok(UrlHandler(h))
      case Err(e) => r == Err(e)
  {
    if url.Some? && url.value != "" then
      if file.size.None? then Err(ValueError("File " + file.id + " must have a size attribute."))
      else
        match GetURLTransferHandler(url, transferId, itemId, psPath)
        case Ok(h) => Ok(UrlHandler(h))
        case Err(e) => Err(e)
    else Ok(GirderDownload(transferId, itemId, psPath))
  }

  /** `getTransferHandler`: load the item, compute its cache path, require
      exactly one child file, then choose by source URL. */
  function GetTransferHandler(env: Girder, root: string, transferId: TransferId, itemId: ItemId): (r: Result<ChosenHandler>)
    ensures r.Ok? ==> itemId in env.itemFiles && |env.itemFiles[itemId]| == 1
    ensures itemId in env.itemFiles && |env.itemFiles[itemId]| != 1 && GetPSPath(root, itemId).Ok? ==>
      r == Err(GetFileFromItem(itemId, env.itemFiles[itemId]).error)
    ensures r.Ok? ==> r.value.TransferIdOf() == transferId && GetPSPath(root, itemId).Ok?
    ensures r.Ok? && r.value.GirderDownload? ==> r.value == GirderDownload(transferId, itemId, GetPSPath(root, itemId).value)
  {
    if itemId !in env.itemFiles then Err(TypeError("'NoneType' object is not subscriptable"))
    else
      match GetPSPath(root, itemId)
      case Err(e) => Err(e)
      case Ok(psPath) =>
        match GetFileFromItem(itemId, env.itemFiles[itemId])
        case Err(e) => Err(e)
        case Ok(file) =>
          match SourceUrl(file, env.storePaths)
          case Err(e) => Err(e)
          case Ok(url) => ChooseHandler(url, file, transferId, itemId, psPath)
  }

  // --- startTransfer and the restart loop as functions of the state ----------------

  /** The manager's state: the transfer table and the handlers started so far. */
  datatype TmState = TmState(records: seq<TransferRecord>, nextId: TransferId, started: seq<ChosenHandler>)

  datatype StartResult = StartResult(state: TmState, result: Result<bool>)

  const NoUser := "'NoneType' object is not subscriptable"

  /** `s'` holds a QUEUED record for the request, and exactly one more
      handler than `s`: the one chosen for that record's id. */
  ghost predicate StartedFor(s: TmState, s': TmState, env: Girder, root: string, user: UserId, itemId: ItemId, sessionId: SessionId) {
    exists t :: t in s'.records && SameRequest(t, itemId, user, sessionId) && t.status == Queued
      && GetTransferHandler(env, root, t.id, itemId).Ok?
      && s'.started == s.started + [GetTransferHandler(env, root, t.id, itemId).value]
  }

  /** `startTransfer`: create or reuse the transfer record, then choose and
      start a handler for that record's id. A missing user fails before any
      write; a handler error leaves the record QUEUED. */
  function StartTransferSpec(s: TmState, env: Girder, root: string, user: Option<UserId>, itemId: ItemId,
                             sessionId: SessionId): (r: StartResult)
    ensures user.None? ==> r == StartResult(s, Err(TypeError(NoUser)))
    ensures r.result.Ok? ==> user.Some? && StartedFor(s, r.state, env, root, user.value, itemId, sessionId)
    ensures r.result.Err? ==> r.state.started == s.started
  {
    match user
    case None => StartResult(s, Err(TypeError(NoUser)))
    case Some(u) =>
      var c := CreateTransferSpec(s.records, s.nextId, u, itemId, sessionId, env.PathOf(itemId));
      match c.result
      case Err(e) => StartResult(TmState(c.records, c.nextId, s.started), Err(e))
      case Ok(t) =>
        match GetTransferHandler(env, root, t.id, itemId)
        case Err(e) => StartResult(TmState(c.records, c.nextId, s.started), Err(e))
        case Ok(h) => StartResult(TmState(c.records, c.nextId, s.started + [h]), Ok(true))
  }

  /** `getUser`: the user document, or None when it does not exist. */
  function GetUser(env: Girder, userId: UserId): (r: Option<UserId>)
    ensures r.Some? <==> userId in env.users
    ensures r.Some? ==> r.value == userId
  {
    if userId in env.users then Some(userId) else None
  }

  datatype RestartResult = RestartResult(state: TmState, failed: seq<ItemId>)

  /** The restart loop: each entry is attempted in order; a failure is logged
      (its item id recorded in `failed`) and the loop goes on. */
  function RestartSpec(s: TmState, env: Girder, root: string, entries: seq<RestartEntry>): (r: RestartResult)
    ensures |r.failed| <= |entries|
    ensures |r.state.started| == |s.started| + |entries| - |r.failed|
    ensures r.state.started[..|s.started|] == s.started
    decreases |entries|
  {
    if entries == [] then RestartResult(s, [])
    else
      var prev := RestartSpec(s, env, root, entries[..|entries| - 1]);
      var e := entries[|entries| - 1];
      var x := StartTransferSpec(prev.state, env, root, GetUser(env, e.ownerId), e.itemId, e.sessionId);
      assert x.state.started[..|prev.state.started|] == prev.state.started;
      RestartResult(x.state, if x.result.Ok? then prev.failed else prev.failed + [e.itemId])
  }

  /** A failing entry does not stop the loop: when every entry but one fails,
      that one is still started. */
  lemma RestartAttemptsEveryEntry(s: TmState, env: Girder, root: string, entries: seq<RestartEntry>, k: nat)
    requires k < |entries|
    ensures var r := RestartSpec(s, env, root, entries[..k + 1]);
      var prev := RestartSpec(s, env, root, entries[..k]);
      var x := StartTransferSpec(prev.state, env, root, GetUser(env, entries[k].ownerId), entries[k].itemId, entries[k].sessionId);
      r.state == x.state && (x.result.Err? <==> r.failed == prev.failed + [entries[k].itemId])
  {
    assert entries[..k + 1][..k] == entries[..k];
  }

  /** A restart entry whose owner no longer exists is skipped without any write. */
  lemma MissingOwnerSkipped(s: TmState, env: Girder, root: string, e: RestartEntry)
    requires e.ownerId !in env.users
    ensures RestartSpec(s, env, root, [e]) == RestartResult(s, [e.itemId])
  {
    assert [e][..0] == [];
  }

  /** A listing of the in-progress items: each once, in some order. */
  ghost predicate ListsDownloading(items: Items, docs: seq<ItemDoc>) {
    && (forall d :: d in docs <==> d.id in items && d.item == items[d.id] && Downloading(d.item))
    && (forall i, j :: 0 <= i < j < |docs| ==> docs[i].id != docs[j].id)
  }

  class SimpleTransferManager {
    /** The outcome of restarting from the listing `docs` and the records
        `active`, starting in state `s0` with the failure log `f0`. */
    ghost predicate RestartedFrom(docs: seq<ItemDoc>, active: seq<TransferRecord>, s0: TmState, f0: seq<ItemId>, r: Result<bool>)
      reads this, transfers
    {
      match RestartList(docs, active)
      case Err(e) => r == Err(e)
      case Ok(entries) =>
        var x := RestartSpec(s0, env, root, entries);
        r == Ok(true) && State() == x.state && failedRestarts == f0 + x.failed
    }

    const transfers: TransferModel
    const lockModel: LockModel
    const env: Girder
    /** The storage root the path mapper reads from the settings. */
    const root: string
    /** The handlers given a transfer thread, in order. */
    var started: seq<ChosenHandler>
    /** The items whose restart failed and was logged. */
    var failedRestarts: seq<ItemId>

    constructor(transfers: TransferModel, lockModel: LockModel, env: Girder, root: string)
      ensures this.transfers == transfers && this.lockModel == lockModel && this.env == env && this.root == root
      ensures started == [] && failedRestarts == []
    {
      this.transfers := transfers;
      this.lockModel := lockModel;
      this.env := env;
      this.root := root;
      started := [];
      failedRestarts := [];
    }

    function State(): TmState
      reads this, transfers
    {
      TmState(transfers.records, transfers.nextId, started)
    }

    /** `startTransfer` and `actualStartTransfer`. */
    method StartTransfer(user: Option<UserId>, itemId: ItemId, sessionId: SessionId) returns (r: Result<bool>)
      requires transfers.Valid()
      modifies this, transfers
      ensures transfers.Valid()
      ensures var x := StartTransferSpec(old(State()), env, root, user, itemId, sessionId);
        State() == x.state && r == x.result
      ensures failedRestarts == old(failedRestarts)
    {
      if user.None? {
        return Err(TypeError(NoUser));
      }
      var t := transfers.CreateTransfer(user.value, itemId, sessionId, env.PathOf(itemId));
      if t.Err? {
        return Err(t.error);
      }
      var h := GetTransferHandler(env, root, t.value.id, itemId);
      if h.Err? {
        return Err(h.error);
      }
      started := started + [h.value];
      return Ok(true);
    }

    /** The list-building loops of `restartInterruptedTransfers`. */
    method RestartEntries(docs: seq<ItemDoc>, active: seq<TransferRecord>) returns (r: Result<seq<RestartEntry>>)
      ensures r == RestartList(docs, active)
    {
      var ids: set<ItemId> := {};
      var data: seq<RestartEntry> := [];
      for i := 0 to |docs|
        invariant ids == ItemIds(docs[..i])
        invariant ItemEntries(docs[..i]) == Ok(data)
      {
        var e := ItemEntry(docs[i]);
        if e.Err? {
          ItemEntriesStopAtError(docs, i + 1);
          return Err(e.error);
        }
        ItemEntriesSnoc(docs, i);
        ItemIdsSnoc(docs, i);
        ids := ids + {docs[i].id};
        data := data + [e.value];
      }
      assert docs[..|docs|] == docs;
      ghost var es := data;
      for j := 0 to |active|
        invariant data == es + Unclaimed(ids, active[..j])
      {
        UnclaimedSnoc(ids, active, j);
        if active[j].itemId !in ids {
          data := data + [TransferEntry(active[j])];
        }
      }
      assert active[..|active|] == active;
      return Ok(data);
    }

    /** The restart loop of `restartInterruptedTransfers`. */
    method Restart(entries: seq<RestartEntry>)
      requires transfers.Valid()
      modifies this, transfers
      ensures transfers.Valid()
      ensures var x := RestartSpec(old(State()), env, root, entries);
        State() == x.state && failedRestarts == old(failedRestarts) + x.failed
    {
      ghost var s0 := State();
      ghost var f0 := failedRestarts;
      assert entries[..0] == [];
      for k := 0 to |entries|
        invariant transfers.Valid()
        invariant var x := RestartSpec(s0, env, root, entries[..k]);
          State() == x.state && failedRestarts == f0 + x.failed
      {
        RestartSpecSnoc(s0, env, root, entries, k);
        RestartOne(entries[k]);
      }
      assert entries[..|entries|] == entries;
    }

    /** One pass of the restart loop: start the entry's transfer, and log the
        item as a failed restart when that raises. */
    method RestartOne(e: RestartEntry)
      requires transfers.Valid()
      modifies this, transfers
      ensures transfers.Valid()
      ensures var x := StartTransferSpec(old(State()), env, root, GetUser(env, e.ownerId), e.itemId, e.sessionId);
        && State() == x.state
        && failedRestarts == old(failedRestarts) + (if x.result.Ok? then [] else [e.itemId])
    {
      var r := StartTransfer(GetUser(env, e.ownerId), e.itemId, e.sessionId);
      if r.Err? {
        failedRestarts := failedRestarts + [e.itemId];
      }
    }

    /** `restartInterruptedTransfers`: list the in-progress items and the recent
        transfer records, merge them, and restart each entry. A missing
        `dm.transfer` field aborts before anything is restarted. */
    method RestartInterruptedTransfers(now: Timestamp) returns (r: Result<bool>)
      requires transfers.Valid()
      modifies this, transfers
      ensures transfers.Valid()
      ensures r.Err? ==> State() == old(State()) && failedRestarts == old(failedRestarts)
      ensures exists docs :: ListsDownloading(lockModel.items, docs) && RestartedFrom(docs, old(transfers.ListAll(true, now)), old(State()), old(failedRestarts), r)
    {
      var docs := lockModel.ListDownloadingItems();
      var active := transfers.ListAll(true, now);
      var entries := RestartEntries(docs, active);
      if entries.Err? {
        assert ListsDownloading(lockModel.items, docs);
        return Err(entries.error);
      }
      Restart(entries.value);
      assert ListsDownloading(lockModel.items, docs);
      return Ok(true);
    }
  }

  /** When an item's entry fails, the whole list fails with that error. */
  /** One more in-progress item with a complete `dm.transfer` adds its entry
      and its id. */
  lemma ItemEntriesSnoc(docs: seq<ItemDoc>, i: nat)
    requires i < |docs| && ItemEntries(docs[..i]).Ok? && ItemEntry(docs[i]).Ok?
    ensures ItemEntries(docs[..i + 1]) == Ok(ItemEntries(docs[..i]).value + [ItemEntry(docs[i]).value])
  {
    assert docs[..i + 1][..i] == docs[..i];
  }

  /** One more in-progress item adds its id. */
  lemma ItemIdsSnoc(docs: seq<ItemDoc>, i: nat)
    requires i < |docs|
    ensures ItemIds(docs[..i + 1]) == ItemIds(docs[..i]) + {docs[i].id}
  {
    assert docs[..i + 1] == docs[..i] + [docs[i]];
  }

  /** One more transfer record adds its entry unless its item is listed. */
  lemma UnclaimedSnoc(ids: set<ItemId>, active: seq<TransferRecord>, j: nat)
    requires j < |active|
    ensures Unclaimed(ids, active[..j + 1])
         == Unclaimed(ids, active[..j]) + if active[j].itemId in ids then [] else [TransferEntry(active[j])]
  {
    assert active[..j + 1][..j] == active[..j];
  }

  /** One more restart entry: the restart of that entry follows the ones
      before it. */
  lemma RestartSpecSnoc(s: TmState, env: Girder, root: string, entries: seq<RestartEntry>, k: nat)
    requires k < |entries|
    ensures var prev := RestartSpec(s, env, root, entries[..k]);
      var e := entries[k];
      var x := StartTransferSpec(prev.state, env, root, GetUser(env, e.ownerId), e.itemId, e.sessionId);
      RestartSpec(s, env, root, entries[..k + 1]) == RestartResult(x.state, if x.result.Ok? then prev.failed else prev.failed + [e.itemId])
  {
    assert entries[..k + 1][..k] == entries[..k];
  }

  lemma ItemEntriesStopAtError(docs: seq<ItemDoc>, n: nat)
    requires 0 < n <= |docs|
    requires ItemEntries(docs[..n - 1]).Ok? && ItemEntry(docs[n - 1]).Err?
    ensures ItemEntries(docs).Err? && ItemEntries(docs).error == ItemEntry(docs[n - 1]).error
  {
    assert docs[..n][..n - 1] == docs[..n - 1];
    ItemEntriesErrorPersists(docs, n);
  }

  lemma {:induction false} ItemEntriesErrorPersists(docs: seq<ItemDoc>, n: nat)
    requires 0 < n <= |docs|
    requires ItemEntries(docs[..n - 1]).Ok? && ItemEntry(docs[n - 1]).Err?
    ensures ItemEntries(docs).Err? && ItemEntries(docs).error == ItemEntry(docs[n - 1]).error
    decreases |docs|
  {
    if n < |docs| {
      var prefix := docs[..|docs| - 1];
      assert prefix[..n - 1] == docs[..n - 1] && prefix[n - 1] == docs[n - 1];
      ItemEntriesErrorPersists(prefix, n);
    } else {
      assert docs[..|docs| - 1] == docs[..n - 1];
    }
  }

  // --- GirderDownloadTransferHandler ---------------------------------------------------

  /** The running totals of a chunked copy: the bytes written after each chunk. */
  function RunningTotals(chunks: seq<seq<byte>>): (r: seq<int>)
    ensures |r| == |chunks|
    decreases |chunks|
  {
    if chunks == [] then [] else RunningTotals(chunks[..|chunks| - 1]) + [|Flatten(chunks)|]
  }

  /** One more chunk: the flattened prefix grows by that chunk, and the
      running totals by the new length. */
  lemma RunningTotalsStep(chunks: seq<seq<byte>>, i: nat)
    requires i < |chunks|
    ensures Flatten(chunks[..i + 1]) == Flatten(chunks[..i]) + chunks[i]
    ensures RunningTotals(chunks[..i + 1]) == RunningTotals(chunks[..i]) + [|Flatten(chunks[..i + 1])|]
  {
    assert chunks[..i + 1][..i] == chunks[..i];
  }

  /** After each chunk, the running total is the length of all the chunks
      written so far. */
  lemma {:induction false} RunningTotalsAreLengths(chunks: seq<seq<byte>>)
    ensures forall k :: 0 <= k < |chunks| ==> RunningTotals(chunks)[k] == |Flatten(chunks[..k + 1])|
    decreases |chunks|
  {
    if chunks != [] {
      var prefix := chunks[..|chunks| - 1];
      RunningTotalsAreLengths(prefix);
      forall k | 0 <= k < |chunks|
        ensures RunningTotals(chunks)[k] == |Flatten(chunks[..k + 1])|
      {
        if k < |prefix| {
          assert chunks[..k + 1] == prefix[..k + 1];
        } else {
          assert chunks[..k + 1] == chunks;
        }
      }
    }
  }

  /** The running totals never decrease, and the last is the whole size. */
  lemma {:induction false} RunningTotalsMonotone(chunks: seq<seq<byte>>)
    ensures forall i, j :: 0 <= i <= j < |chunks| ==> RunningTotals(chunks)[i] <= RunningTotals(chunks)[j]
    ensures chunks != [] ==> RunningTotals(chunks)[|chunks| - 1] == |Flatten(chunks)|
    decreases |chunks|
  {
    if chunks != [] {
      var prefix := chunks[..|chunks| - 1];
      RunningTotalsMonotone(prefix);
      var r := RunningTotals(chunks);
      assert r == RunningTotals(prefix) + [|Flatten(chunks)|];
      assert |Flatten(chunks)| == |Flatten(prefix)| + |chunks[|chunks| - 1]|;
      forall i, j | 0 <= i <= j < |chunks|
        ensures r[i] <= r[j]
      {
        if j == |chunks| - 1 && i < j {
          assert r[i] <= RunningTotals(prefix)[|prefix| - 1];
        }
      }
    }
  }

  class GirderDownloadHandler {
    const base: TransferHandler
    const transfers: TransferModel
    const disk: Disk

    constructor(base: TransferHandler, transfers: TransferModel, disk: Disk)
      ensures this.base == base && this.transfers == transfers && this.disk == disk
    {
      this.base := base;
      this.transfers := transfers;
      this.disk := disk;
    }

    /** `transfer`: require one child file, mark the transfer TRANSFERRING with
        a start time (its size is `flen`, which nothing sets here, so 0), then
        truncate the cache file and copy Girder's download stream into it. */
    method Transfer(files: seq<FileDoc>, chunks: seq<seq<byte>>, now: Timestamp) returns (r: Result<bool>)
      modifies base, transfers, disk
      ensures GetFileFromItem(base.itemId, files).Err? ==>
        && r == Err(GetFileFromItem(base.itemId, files).error)
        && transfers.records == old(transfers.records) && disk.files == old(disk.files)
        && base.sent == old(base.sent) && base.lastTransferred == old(base.lastTransferred)
      ensures GetFileFromItem(base.itemId, files).Ok? ==>
        var t := ThrottleRun(base.flen, old(base.lastTransferred), RunningTotals(chunks));
        && r == Ok(true)
        && transfers.records == SetStatusSpec(old(transfers.records), base.transferId, Transferring, None, base.flen, 0, true, false, now)
        && disk.files == old(disk.files)[base.psPath := Flatten(chunks)]
        && base.sent == old(base.sent) + SentUpdates(base.flen, t.emitted)
        && base.lastTransferred == t.last
      ensures base.flen == old(base.flen) && transfers.nextId == old(transfers.nextId)
    {
      var file := GetFileFromItem(base.itemId, files);
      if file.Err? {
        return Err(file.error);
      }
      transfers.SetStatus(base.transferId, Transferring, None, base.flen, 0, true, false, now);
      disk.Truncate(base.psPath);
      TransferBytes(chunks);
      assert [] + Flatten(chunks) == Flatten(chunks);
      return Ok(true);
    }

    /** `transferBytes`: write each chunk in order and report the running
        total after each. */
    method TransferBytes(chunks: seq<seq<byte>>)
      requires base.psPath in disk.files
      modifies base, disk
      ensures disk.files == old(disk.files)[base.psPath := old(disk.files)[base.psPath] + Flatten(chunks)]
      ensures var t := ThrottleRun(base.flen, old(base.lastTransferred), RunningTotals(chunks));
        base.sent == old(base.sent) + SentUpdates(base.flen, t.emitted) && base.lastTransferred == t.last
      ensures base.flen == old(base.flen)
    {
      ghost var files0 := disk.files;
      ghost var last0 := base.lastTransferred;
      ghost var sent0 := base.sent;
      var crt := 0;
      assert files0[base.psPath] + Flatten(chunks[..0]) == files0[base.psPath];
      for i := 0 to |chunks|
        invariant disk.files == files0[base.psPath := files0[base.psPath] + Flatten(chunks[..i])]
        invariant crt == |Flatten(chunks[..i])|
        invariant base.flen == old(base.flen)
        invariant base.sent == sent0 + SentUpdates(base.flen, ThrottleRun(base.flen, last0, RunningTotals(chunks[..i])).emitted)
        invariant base.lastTransferred == ThrottleRun(base.flen, last0, RunningTotals(chunks[..i])).last
      {
        RunningTotalsStep(chunks, i);
        WriteChunk(files0, chunks, i);
        crt := crt + |chunks[i]|;
        base.ReportFollowingRun(last0, sent0, RunningTotals(chunks[..i]), crt);
      }
      assert chunks[..|chunks|] == chunks;
    }

    /** One `outf.write(chunk)`: the chunk follows the ones already written. */
    method WriteChunk(ghost files0: map<Path, seq<byte>>, chunks: seq<seq<byte>>, i: nat)
      requires base.psPath in files0 && i < |chunks|
      requires disk.files == files0[base.psPath := files0[base.psPath] + Flatten(chunks[..i])]
      modifies disk
      ensures disk.files == files0[base.psPath := files0[base.psPath] + Flatten(chunks[..i + 1])]
    {
      RunningTotalsStep(chunks, i);
      assert (files0[base.psPath] + Flatten(chunks[..i])) + chunks[i] == files0[base.psPath] + Flatten(chunks[..i + 1]);
      disk.Append(base.psPath, chunks[i]);
    }
  }
}
