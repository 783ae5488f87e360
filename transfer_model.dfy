/** The table of transfer records (server/models/transfer.py). The table is kept
    in insertion order, which is the order in which a query scans it. */
module Transfers {
  import opened Base

  /** The transfer status codes. */
  const Initializing: int := 0
  const Queued: int := 1
  const Transferring: int := 2
  const Done: int := 3
  const Failed: int := 4

  /** Finished transfers older than this many seconds are not listed by default. */
  const OldTransferLimit: nat := 60

  datatype TransferRecord = TransferRecord(
    id: TransferId,
    ownerId: UserId,
    sessionId: SessionId,
    itemId: ItemId,
    status: int,
    error: Option<string>,
    size: int,
    transferred: int,
    path: Path,
    startTime: Option<Timestamp>,
    endTime: Option<Timestamp>)

  predicate SameRequest(t: TransferRecord, itemId: ItemId, ownerId: UserId, sessionId: SessionId) {
    t.itemId == itemId && t.ownerId == ownerId && t.sessionId == sessionId
  }

  /** What `createTransfer` and the id counter maintain: ids are below the
      counter and unique, and there is at most one record per (item, owner,
      session). */
  ghost predicate WellFormed(records: seq<TransferRecord>, nextId: TransferId) {
    && (forall i :: 0 <= i < |records| ==> records[i].id < nextId)
    && (forall i, j :: 0 <= i < j < |records| ==> records[i].id != records[j].id)
    && (forall i, j :: 0 <= i < j < |records| ==>
          !SameRequest(records[j], records[i].itemId, records[i].ownerId, records[i].sessionId))
  }

  /** `findOne`: the position of the first record for the request. */
  function FindRequest(records: seq<TransferRecord>, itemId: ItemId, ownerId: UserId, sessionId: SessionId): (r: Option<nat>)
    ensures r.None? <==> forall i :: 0 <= i < |records| ==> !SameRequest(records[i], itemId, ownerId, sessionId)
    ensures r.Some? ==> r.value < |records| && SameRequest(records[r.value], itemId, ownerId, sessionId)
    ensures r.Some? ==> forall i :: 0 <= i < r.value ==> !SameRequest(records[i], itemId, ownerId, sessionId)
    decreases |records|
  {
    if records == [] then None
    else if SameRequest(records[0], itemId, ownerId, sessionId) then Some(0)
    else match FindRequest(records[1..], itemId, ownerId, sessionId)
      case None => None
      case Some(i) => Some(i + 1)
  }

  /** The outcome of `createTransfer`: the new table and id counter, and the saved
      record or the error raised. */
  datatype Created = Created(records: seq<TransferRecord>, nextId: TransferId, result: Result<TransferRecord>)

  /** `createTransfer`: reuse the id of the existing record for the request, or
      take a fresh one; resolve the item's path (`path`, computed by the caller);
      on a KeyError remove the existing record and re-raise; otherwise save a
      record reset to QUEUED, replacing the whole existing document. */
  function CreateTransferSpec(records: seq<TransferRecord>, nextId: TransferId, user: UserId, itemId: ItemId,
                              sessionId: SessionId, path: Result<Path>): (r: Created)
    ensures r.result.Ok? <==> path.Ok?
    ensures r.result.Ok? ==>
      r.result.value == TransferRecord(r.result.value.id, user, sessionId, itemId, Queued, None, 0, 0, path.value, None, None)
    ensures r.result.Err? ==> r.result.error == path.error
    ensures FindRequest(records, itemId, user, sessionId).Some? && r.result.Ok? ==>
      r.result.value.id == records[FindRequest(records, itemId, user, sessionId).value].id
    ensures FindRequest(records, itemId, user, sessionId).None? && r.result.Ok? ==> r.result.value.id == nextId
    ensures r.result.Ok? ==> r.result.value in r.records
    ensures path.Err? && !path.error.KeyError? ==> r.records == records
  {
    var existing := FindRequest(records, itemId, user, sessionId);
    var transferId := if existing.Some? then records[existing.value].id else nextId;
    var nextId' := if existing.Some? then nextId else nextId + 1;
    match path
    case Err(e) =>
      if e.KeyError? && existing.Some? then
        var i := existing.value;
        assert records == records[..i] + [records[i]] + records[i + 1..];
        Created(records[..i] + records[i + 1..], nextId', Err(e))
      else Created(records, nextId', Err(e))
    case Ok(p) =>
      var t := TransferRecord(transferId, user, sessionId, itemId, Queued, None, 0, 0, p, None, None);
      if existing.Some? then
        var updated := records[existing.value := t];
        assert updated[existing.value] == t;
        Created(updated, nextId', Ok(t))
      else
        Created(records + [t], nextId', Ok(t))
  }

  /** A KeyError while resolving the path leaves no record for the request and
      keeps every other record. */
  lemma CreateTransferKeyErrorRemoves(records: seq<TransferRecord>, nextId: TransferId, user: UserId, itemId: ItemId,
                                      sessionId: SessionId, key: string)
    requires WellFormed(records, nextId)
    ensures var r := CreateTransferSpec(records, nextId, user, itemId, sessionId, Err(KeyError(key)));
      forall t :: t in r.records <==> t in records && !SameRequest(t, itemId, user, sessionId)
  {
    var existing := FindRequest(records, itemId, user, sessionId);
    var r := CreateTransferSpec(records, nextId, user, itemId, sessionId, Err(KeyError(key)));
    if existing.Some? {
      var i := existing.value;
      assert r.records == records[..i] + records[i + 1..];
      forall t | t in records
        ensures t in r.records <==> !SameRequest(t, itemId, user, sessionId)
      {
        var k :| 0 <= k < |records| && records[k] == t;
        if k < i {
          assert r.records[k] == t;
        } else if k > i {
          assert r.records[k - 1] == t;
        } else {
          forall m | 0 <= m < |r.records| ensures r.records[m] != t {
            if m < i {
              assert r.records[m] == records[m];
            } else {
              assert r.records[m] == records[m + 1];
            }
          }
        }
      }
    }
  }

  /** `createTransfer` keeps the table well formed: in particular it never
      creates a second record for the same (item, owner, session). */
  lemma CreateTransferKeepsWellFormed(records: seq<TransferRecord>, nextId: TransferId, user: UserId, itemId: ItemId,
                                      sessionId: SessionId, path: Result<Path>)
    requires WellFormed(records, nextId)
    ensures var r := CreateTransferSpec(records, nextId, user, itemId, sessionId, path);
      WellFormed(r.records, r.nextId)
  {
    var existing := FindRequest(records, itemId, user, sessionId);
    var r := CreateTransferSpec(records, nextId, user, itemId, sessionId, path);
    if path.Err? {
      if existing.Some? && path.error.KeyError? {
        RemoveKeepsWellFormed(records, nextId, existing.value);
      }
    } else if existing.Some? {
      ReplaceKeepsWellFormed(records, nextId, existing.value, r.result.value);
    } else {
      AppendKeepsWellFormed(records, nextId, r.result.value);
    }
  }

  /** Removing one record keeps the table well formed. */
  lemma RemoveKeepsWellFormed(records: seq<TransferRecord>, nextId: TransferId, i: nat)
    requires WellFormed(records, nextId) && i < |records|
    ensures WellFormed(records[..i] + records[i + 1..], nextId)
  {
    var r := records[..i] + records[i + 1..];
    assert forall m :: 0 <= m < |r| ==> r[m] == records[if m < i then m else m + 1];
  }

  /** Replacing a record by one with the same id and request keeps the table
      well formed. */
  lemma ReplaceKeepsWellFormed(records: seq<TransferRecord>, nextId: TransferId, i: nat, t: TransferRecord)
    requires WellFormed(records, nextId) && i < |records|
    requires t.id == records[i].id && SameRequest(t, records[i].itemId, records[i].ownerId, records[i].sessionId)
    ensures WellFormed(records[i := t], nextId)
  {
  }

  /** Appending a record with a fresh id and a new request keeps the table
      well formed once the counter moves past the id. */
  lemma AppendKeepsWellFormed(records: seq<TransferRecord>, nextId: TransferId, t: TransferRecord)
    requires WellFormed(records, nextId) && t.id == nextId
    requires forall i :: 0 <= i < |records| ==> !SameRequest(records[i], t.itemId, t.ownerId, t.sessionId)
    ensures WellFormed(records + [t], nextId + 1)
  {
  }

  /** `setStatus` applied to one record: status, error, size and transferred are
      always overwritten; start and end times are stamped only when asked. */
  function WithStatus(t: TransferRecord, status: int, error: Option<string>, size: int, transferred: int,
                      setStartTime: bool, setEndTime: bool, now: Timestamp): (r: TransferRecord)
    ensures r.status == status && r.error == error && r.size == size && r.transferred == transferred
    ensures r.startTime == (if setStartTime then Some(now) else t.startTime)
    ensures r.endTime == (if setEndTime then Some(now) else t.endTime)
    ensures r.id == t.id && r.ownerId == t.ownerId && r.sessionId == t.sessionId
    ensures r.itemId == t.itemId && r.path == t.path
  {
    t.(status := status, error := error, size := size, transferred := transferred,
       startTime := if setStartTime then Some(now) else t.startTime,
       endTime := if setEndTime then Some(now) else t.endTime)
  }

  /** `setStatus` on the table: the record with the id changes, no other does. */
  function SetStatusSpec(records: seq<TransferRecord>, id: TransferId, status: int, error: Option<string>, size: int,
                         transferred: int, setStartTime: bool, setEndTime: bool, now: Timestamp): (r: seq<TransferRecord>)
    ensures |r| == |records|
    ensures forall i :: 0 <= i < |records| && records[i].id == id ==>
      r[i] == WithStatus(records[i], status, error, size, transferred, setStartTime, setEndTime, now)
    ensures forall i :: 0 <= i < |records| && records[i].id != id ==> r[i] == records[i]
  {
    seq(|records|, i requires 0 <= i < |records| =>
      if records[i].id == id then WithStatus(records[i], status, error, size, transferred, setStartTime, setEndTime, now)
      else records[i])
  }

  /** `getTimeConstraintQuery`: with `discardOld`, a record passes if it has no
      end time or ended at most a minute before `now`; without it, every record
      passes. */
  predicate RecentEnough(t: TransferRecord, discardOld: bool, now: Timestamp) {
    !discardOld || t.endTime.None? || t.endTime.value >= now - OldTransferLimit
  }

  /** A record that `setStatus` stamped with an end time is listed by default
      for exactly one minute after that time. */
  lemma FinishedRecordAges(t: TransferRecord, status: int, error: Option<string>, size: int, transferred: int,
                           setStartTime: bool, ended: Timestamp, now: Timestamp)
    ensures var f := WithStatus(t, status, error, size, transferred, setStartTime, true, ended);
      RecentEnough(f, true, now) <==> now <= ended + OldTransferLimit
    ensures var f := WithStatus(t, status, error, size, transferred, setStartTime, true, ended);
      RecentEnough(f, false, now)
  {
  }

  /** The time filter as the store evaluates it: `setStatus` stamps `endTime`
      as a BSON timestamp, while the filter compares it with a BSON date, and
      values of different BSON types never compare in a query. With
      `discardOld`, only records with no end time pass. */
  predicate RecentEnoughAsWritten(t: TransferRecord, discardOld: bool) {
    !discardOld || t.endTime.None?
  }

  /** As written, a record that `setStatus` stamped with an end time is never
      listed by default, not even at the instant it ended; the intended filter
      lists it for one minute. */
  lemma StampedEndTimeNeverListed(t: TransferRecord, status: int, error: Option<string>, size: int, transferred: int,
                                  setStartTime: bool, ended: Timestamp)
    ensures var f := WithStatus(t, status, error, size, transferred, setStartTime, true, ended);
      !RecentEnoughAsWritten(f, true) && RecentEnough(f, true, ended)
  {
  }

  class TransferModel {
    var records: seq<TransferRecord>
    var nextId: TransferId

    ghost predicate Valid()
      reads this
    {
      WellFormed(records, nextId)
    }

    constructor()
      ensures Valid() && records == [] && nextId == 0
    {
      records := [];
      nextId := 0;
    }

    method CreateTransfer(user: UserId, itemId: ItemId, sessionId: SessionId, path: Result<Path>)
      returns (r: Result<TransferRecord>)
      requires Valid()
      modifies this
      ensures Valid()
      ensures var c := CreateTransferSpec(old(records), old(nextId), user, itemId, sessionId, path);
        records == c.records && nextId == c.nextId && r == c.result
    {
      CreateTransferKeepsWellFormed(records, nextId, user, itemId, sessionId, path);
      var existing := FindRequest(records, itemId, user, sessionId);
      var transferId := nextId;
      if existing.Some? {
        transferId := records[existing.value].id;
      } else {
        nextId := nextId + 1;
      }
      if path.Err? {
        if path.error.KeyError? && existing.Some? {
          var i := existing.value;
          records := records[..i] + records[i + 1..];
        }
        return Err(path.error);
      }
      var t := TransferRecord(transferId, user, sessionId, itemId, Queued, None, 0, 0, path.value, None, None);
      if existing.Some? {
        records := records[existing.value := t];
      } else {
        records := records + [t];
      }
      return Ok(t);
    }

    method SetStatus(id: TransferId, status: int, error: Option<string>, size: int, transferred: int,
                     setStartTime: bool, setEndTime: bool, now: Timestamp)
      modifies this
      ensures records == SetStatusSpec(old(records), id, status, error, size, transferred, setStartTime, setEndTime, now)
      ensures nextId == old(nextId)
      ensures old(Valid()) ==> Valid()
    {
      records := SetStatusSpec(records, id, status, error, size, transferred, setStartTime, setEndTime, now);
    }

    /** `listAll`. */
    function ListAll(discardOld: bool, now: Timestamp): (r: seq<TransferRecord>)
      reads this
      ensures forall t :: t in r <==> t in records && RecentEnough(t, discardOld, now)
    {
      Filter(records, t => RecentEnough(t, discardOld, now))
    }

    /** `listAllForUser`: the user's records. */
    function ListAllForUser(user: UserId, discardOld: bool, now: Timestamp): (r: seq<TransferRecord>)
      reads this
      ensures forall t :: t in r <==> t in records && RecentEnough(t, discardOld, now) && t.ownerId == user
    {
      Filter(records, t => RecentEnough(t, discardOld, now) && t.ownerId == user)
    }

    /** `listAllForSession`: the user's records for one session. */
    function ListAllForSession(user: UserId, sessionId: SessionId, discardOld: bool, now: Timestamp): (r: seq<TransferRecord>)
      reads this
      ensures forall t :: t in r <==>
        t in records && RecentEnough(t, discardOld, now) && t.ownerId == user && t.sessionId == sessionId
    {
      Filter(records, t => RecentEnough(t, discardOld, now) && t.ownerId == user && t.sessionId == sessionId)
    }

    /** `list`: by owner, and also by session when one is given. */
    function List(user: UserId, sessionId: Option<SessionId>, discardOld: bool, now: Timestamp): (r: seq<TransferRecord>)
      reads this
      ensures forall t :: t in r <==>
        && t in records && RecentEnough(t, discardOld, now) && t.ownerId == user
        && (sessionId.Some? ==> t.sessionId == sessionId.value)
    {
      if sessionId.None? then ListAllForUser(user, discardOld, now)
      else ListAllForSession(user, sessionId.value, discardOld, now)
    }
  }

  /** A record just saved by `createTransfer` has no end time, so it is listed
      for its owner whatever the time and the `discardOld` flag. */
  lemma CreatedRecordIsListed(m: TransferModel, user: UserId, sessionId: SessionId,
                              t: TransferRecord, discardOld: bool, now: Timestamp)
    requires t in m.records && t.endTime.None? && t.ownerId == user && t.sessionId == sessionId
    ensures t in m.List(user, None, discardOld, now)
    ensures t in m.List(user, Some(sessionId), discardOld, now)
  {
  }
}
