/** The single private-storage usage record (server/models/psinfo.py). */
module PsInfo {
  import opened Base

  /** What `getInfo` returns. */
  datatype Info = Info(used: int, capacity: int)

  /** `updateInfo`: an update with an empty filter and no upsert, so it rewrites
      `used` on an existing record and creates none. */
  function UpdatedRecord(record: Option<int>, used: int): (r: Option<int>)
    ensures r.None? <==> record.None?
    ensures r.Some? ==> r.value == used
  {
    if record.None? then None else Some(used)
  }

  /** A store that starts without a usage record never acquires one, whatever
      sequence of `updateInfo` calls runs against it. */
  lemma {:induction false} NeverCreated(record: Option<int>, updates: seq<int>)
    requires record.None?
    ensures UpdatedRecords(record, updates).None?
    decreases |updates|
  {
    if updates != [] {
      NeverCreated(UpdatedRecord(record, updates[0]), updates[1..]);
    }
  }

  function UpdatedRecords(record: Option<int>, updates: seq<int>): Option<int>
    decreases |updates|
  {
    if updates == [] then record else UpdatedRecords(UpdatedRecord(record, updates[0]), updates[1..])
  }

  /** The usage record. The capacity is the private-storage-capacity setting,
      which is read on every call and is therefore a parameter. */
  class PSInfo {
    /** The `used` field of the stored record, None when no record exists. */
    var record: Option<int>

    constructor(record: Option<int>)
      ensures this.record == record
    {
      this.record := record;
    }

    method UpdateInfo(used: int)
      modifies this
      ensures record == UpdatedRecord(old(record), used)
    {
      if record.Some? {
        record := Some(used);
      }
    }

    /** `getInfo`: the stored usage (0 when there is no record) and the capacity
        setting. */
    function GetInfo(capacity: int): (r: Info)
      reads this
      ensures record.None? ==> r.used == 0
      ensures record.Some? ==> r.used == record.value
      ensures r.capacity == capacity
    {
      Info(record.GetOr(0), capacity)
    }

    function TotalSize(capacity: int): (r: int)
      ensures r == capacity
    {
      capacity
    }

    /** `sizeUsed` reads the capacity entry of `getInfo`, so it reports the total
        size and never the stored usage. */
    function SizeUsed(capacity: int): (r: int)
      reads this
      ensures r == TotalSize(capacity)
    {
      GetInfo(capacity).capacity
    }
  }

  /** Whatever the stored usage, `sizeUsed` does not depend on it. */
  lemma SizeUsedIgnoresRecord(p: PSInfo, q: PSInfo, capacity: int)
    ensures p.SizeUsed(capacity) == q.SizeUsed(capacity)
  {
  }
}
