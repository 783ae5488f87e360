/** The transfer-handler base (server/lib/tm_utils.py): the throttle that decides
    which progress updates reach the transfer manager, the single-file check,
    and the transfer exception. */
module TmUtils {
  import opened Base

  /** A Girder file document, as far as the transfer code reads it. Absent keys
      are None; `imported` records only whether the key is present. */
  datatype FileDoc = FileDoc(
    id: string,
    size: Option<nat>,
    linkUrl: Option<string>,
    imported: bool,
    path: Option<string>,
    assetstoreId: Option<string>)

  /** Progress updates are sent only after at least 1 MiB ... */
  const MinChunkSize: nat := 1024 * 1024
  /** ... and at least this fraction of the total size. */
  const MinFractionalChunkSize: real := 0.001

  /** The fractional threshold: `size` times 0.001. */
  function FractionalQuota(size: int): real {
    size as real * MinFractionalChunkSize
  }

  /** The throttle test of `updateTransferProgress`. */
  predicate ShouldReport(size: int, lastTransferred: int, transferred: int) {
    var delta := transferred - lastTransferred;
    delta >= MinChunkSize && delta as real >= FractionalQuota(size)
  }

  /** A progress update as sent: the total and the current byte count. */
  datatype Progress = Progress(total: int, current: int)

  /** The result of feeding successive byte counts to the throttle: the final
      `lastTransferred` and the counts that were sent. */
  datatype Throttle = Throttle(last: int, emitted: seq<int>)

  /** The `lastTransferred` value that the `k`-th sent update was compared with. */
  function PrevSent(last0: int, emitted: seq<int>, k: nat): int
    requires k < |emitted|
  {
    if k == 0 then last0 else emitted[k - 1]
  }

  /** The throttle applied to the counts `crts`, starting from `last0`: the
      last sent count is the new `lastTransferred`, and each sent count is at
      least one MiB past the previous one. */
  function ThrottleRun(size: int, last0: int, crts: seq<int>): (t: Throttle)
    ensures t.emitted == [] ==> t.last == last0
    ensures t.emitted != [] ==> t.last == t.emitted[|t.emitted| - 1]
    ensures t.last - last0 >= |t.emitted| * 1048576  // MinChunkSize per update
    decreases |crts|
  {
    if crts == [] then Throttle(last0, [])
    else
      var t := ThrottleRun(size, last0, crts[..|crts| - 1]);
      var c := crts[|crts| - 1];
      if ShouldReport(size, t.last, c) then Throttle(c, t.emitted + [c]) else t
  }

  /** Feeding one more count to the throttle appends the update it sends, if
      any: this is how a loop of `updateTransferProgress` calls follows
      `ThrottleRun`. */
  lemma ThrottleStep(size: int, last0: int, crts: seq<int>, c: int)
    ensures var t := ThrottleRun(size, last0, crts);
      ThrottleRun(size, last0, crts + [c]) ==
        (if ShouldReport(size, t.last, c) then Throttle(c, t.emitted + [c]) else t)
  {
    assert (crts + [c])[..|crts|] == crts;
  }

  /** Each count in `emitted` passes the throttle test against the one before
      it (the first against `last0`). */
  predicate AllPassed(size: int, last0: int, emitted: seq<int>) {
    forall k :: 0 <= k < |emitted| ==> ShouldReport(size, PrevSent(last0, emitted, k), emitted[k])
  }

  /** Sending one more count that passes against the last one sent keeps every
      sent count passing. */
  lemma AllPassedSnoc(size: int, last0: int, emitted: seq<int>, c: int)
    requires AllPassed(size, last0, emitted)
    requires ShouldReport(size, if emitted == [] then last0 else emitted[|emitted| - 1], c)
    ensures AllPassed(size, last0, emitted + [c])
  {
    var e := emitted + [c];
    forall k | 0 <= k < |e|
      ensures ShouldReport(size, PrevSent(last0, e, k), e[k])
    {
      if k < |emitted| {
        assert e[k] == emitted[k] && PrevSent(last0, e, k) == PrevSent(last0, emitted, k);
      }
    }
  }

  /** Every sent count passed the throttle test against the count sent before
      it (or the starting value). */
  lemma {:induction false} ThrottleSendsOnlyPassing(size: int, last0: int, crts: seq<int>)
    ensures AllPassed(size, last0, ThrottleRun(size, last0, crts).emitted)
    decreases |crts|
  {
    if crts != [] {
      var prefix := crts[..|crts| - 1];
      var c := crts[|crts| - 1];
      ThrottleSendsOnlyPassing(size, last0, prefix);
      ThrottleStep(size, last0, prefix, c);
      assert prefix + [c] == crts;
      var tp := ThrottleRun(size, last0, prefix);
      if ShouldReport(size, tp.last, c) {
        AllPassedSnoc(size, last0, tp.emitted, c);
      }
    }
  }


  /** The throttle only ever sends counts it was given. */
  lemma {:induction false} ThrottleEmitsFromInput(size: int, last0: int, crts: seq<int>)
    ensures forall k :: 0 <= k < |ThrottleRun(size, last0, crts).emitted| ==>
      ThrottleRun(size, last0, crts).emitted[k] in crts
    decreases |crts|
  {
    if crts != [] {
      var prefix := crts[..|crts| - 1];
      var c := crts[|crts| - 1];
      ThrottleEmitsFromInput(size, last0, prefix);
      ThrottleStep(size, last0, prefix, c);
      assert prefix + [c] == crts;
      var tp := ThrottleRun(size, last0, prefix);
      var t := ThrottleRun(size, last0, crts);
      forall k | 0 <= k < |t.emitted|
        ensures t.emitted[k] in crts
      {
        if k < |tp.emitted| {
          assert t.emitted[k] == tp.emitted[k];
          assert tp.emitted[k] in prefix;
        } else {
          assert t.emitted[k] == c;
        }
      }
    }
  }

  /** The fractional test is exact in integers: a delta reaches a thousandth of
      the size iff a thousand deltas reach the size. */
  lemma FractionalTestInIntegers(size: int, delta: int)
    ensures delta as real >= FractionalQuota(size) <==> 1000 * delta >= size
  {
  }

  lemma MulMonotone(a: int, b: int, c: int)
    requires a >= b && c >= 0
    ensures a * c >= b * c
  {
  }

  lemma MulSucc(n: int, m: int)
    ensures (n + 1) * m == n * m + m
  {
  }

  /** A thousand times the distance covered by the throttle is at least the
      number of updates sent times the size. */
  lemma {:induction false} ThrottleCoversQuota(size: int, last0: int, crts: seq<int>)
    ensures var t := ThrottleRun(size, last0, crts);
      1000 * (t.last - last0) >= |t.emitted| * size
    decreases |crts|
  {
    if crts != [] {
      var prefix := crts[..|crts| - 1];
      ThrottleCoversQuota(size, last0, prefix);
      var t := ThrottleRun(size, last0, prefix);
      var c := crts[|crts| - 1];
      var t' := ThrottleRun(size, last0, crts);
      if ShouldReport(size, t.last, c) {
        FractionalTestInIntegers(size, c - t.last);
        var n := |t.emitted|;
        assert t' == Throttle(c, t.emitted + [c]);
        assert 1000 * (c - t.last) >= size;
        assert 1000 * (t.last - last0) >= n * size;
        MulSucc(n, size);
        assert |t'.emitted| == n + 1;
      } else {
        assert t' == t;
      }
    }
  }

  /** With a positive size, counts that never exceed it, and a throttle starting
      from 0, at most 1000 updates are sent, and they are at least 1 MiB apart,
      so no more than size / 1 MiB of them. */
  lemma AtMostThousandUpdates(size: int, crts: seq<int>)
    requires size > 0
    requires forall k :: 0 <= k < |crts| ==> crts[k] <= size
    ensures |ThrottleRun(size, 0, crts).emitted| <= 1000
    ensures |ThrottleRun(size, 0, crts).emitted| * 1048576 <= size
  {
    var t := ThrottleRun(size, 0, crts);
    ThrottleEmitsFromInput(size, 0, crts);
    if t.emitted != [] {
      assert t.emitted[|t.emitted| - 1] in crts;
    }
    assert t.last <= size;
    ThrottleCoversQuota(size, 0, crts);
    var n := |t.emitted|;
    if n > 1000 {
      MulMonotone(n, 1001, size);
    }
  }

  /** The handler base. Progress updates go to the transfer manager; the model
      keeps the updates sent as `sent`. */
  class TransferHandler {
    const transferId: TransferId
    const itemId: ItemId
    const psPath: Path
    var flen: int
    var lastTransferred: int
    var sent: seq<Progress>

    /** A new handler has transferred nothing and knows no file length. */
    constructor(transferId: TransferId, itemId: ItemId, psPath: Path)
      ensures this.transferId == transferId && this.itemId == itemId && this.psPath == psPath
      ensures flen == 0 && lastTransferred == 0 && sent == []
    {
      this.transferId := transferId;
      this.itemId := itemId;
      this.psPath := psPath;
      flen := 0;
      lastTransferred := 0;
      sent := [];
    }

    /** `updateTransferProgress`: send (size, transferred) and remember it only
        when the throttle test passes. */
    method UpdateTransferProgress(size: int, transferred: int)
      modifies this
      ensures ShouldReport(size, old(lastTransferred), transferred) ==>
        sent == old(sent) + [Progress(size, transferred)] && lastTransferred == transferred
      ensures !ShouldReport(size, old(lastTransferred), transferred) ==>
        sent == old(sent) && lastTransferred == old(lastTransferred)
      ensures flen == old(flen)
    {
      var delta := transferred - lastTransferred;
      if delta >= MinChunkSize && delta as real >= size as real * MinFractionalChunkSize {
        sent := sent + [Progress(size, transferred)];
        lastTransferred := transferred;
      }
    }

    /** One `updateTransferProgress(flen, crt)` call of a copy loop whose earlier
        calls passed the counts `totals` extends the throttle run by `crt`. */
    method ReportFollowingRun(ghost last0: int, ghost sent0: seq<Progress>, ghost totals: seq<int>, crt: int)
      requires sent == sent0 + SentUpdates(flen, ThrottleRun(flen, last0, totals).emitted)
      requires lastTransferred == ThrottleRun(flen, last0, totals).last
      modifies this
      ensures flen == old(flen)
      ensures sent == sent0 + SentUpdates(flen, ThrottleRun(flen, last0, totals + [crt]).emitted)
      ensures lastTransferred == ThrottleRun(flen, last0, totals + [crt]).last
    {
      ThrottleStep(flen, last0, totals, crt);
      SentUpdatesSnoc(flen, ThrottleRun(flen, last0, totals).emitted, crt);
      UpdateTransferProgress(flen, crt);
    }

    /** The base handler does not use a managed transfer service. */
    function IsManaged(): (r: bool)
      ensures !r
    {
      false
    }
  }

  /** The progress updates the throttle sends for counts `crts` at a fixed size. */
  function SentUpdates(size: int, emitted: seq<int>): (r: seq<Progress>)
    ensures |r| == |emitted|
    ensures forall k :: 0 <= k < |r| ==> r[k] == Progress(size, emitted[k])
  {
    seq(|emitted|, k requires 0 <= k < |emitted| => Progress(size, emitted[k]))
  }

  lemma SentUpdatesSnoc(size: int, emitted: seq<int>, c: int)
    ensures SentUpdates(size, emitted + [c]) == SentUpdates(size, emitted) + [Progress(size, c)]
  {
  }

  /** `_getFileFromItem`: the item must have exactly one child file. */
  function GetFileFromItem(itemId: ItemId, files: seq<FileDoc>): (r: Result<FileDoc>)
    ensures r.Ok? <==> |files| == 1
    ensures r.Ok? ==> r.value == files[0]
    ensures r.Err? ==> r.error == Failure("Wrong number of files for item " + itemId + ": " + NatToString(|files|))
  {
    if |files| != 1 then Err(Failure("Wrong number of files for item " + itemId + ": " + NatToString(|files|)))
    else Ok(files[0])
  }

  /** An exception raised by a transfer; fatal unless stated otherwise. */
  datatype TransferException = TransferException(message: Option<string>, cause: Option<Error>, fatal: bool := true)
  {
    function IsFatal(): (r: bool)
      ensures r <==> fatal
    {
      fatal
    }
  }

  lemma FatalByDefault(message: Option<string>, cause: Option<Error>)
    ensures TransferException(message, cause).IsFatal()
    ensures !TransferException(message, cause, false).IsFatal()
  {
  }
}
