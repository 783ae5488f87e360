/** The status lifecycle of a transfer (wt_data_manager/server/lib/tm_utils.py):
    `run` marks the transfer INITIALIZING, runs the handler's `transfer`, and
    then marks it DONE and announces the downloaded file, or marks it FAILED
    with the error message. Progress updates mark it TRANSFERRING under the same
    throttle as the handler base. */
module TransferRun {
  import opened Base
  import opened Transfers
  import opened TmUtils

  /** The payload of the `dm.fileDownloaded` event. */
  datatype DownloadedInfo = DownloadedInfo(itemId: ItemId, psPath: Path)

  /** How the handler's `transfer` ended: normally, having set the file length,
      or by raising an exception with a message. */
  datatype TransferOutcome = Completed(flen: int) | Raised(message: string)

  /** The effect of `run` on the transfer table, and the event it fires. */
  datatype RunResult = RunResult(records: seq<TransferRecord>, event: Option<DownloadedInfo>)

  function RunSpec(records: seq<TransferRecord>, transferId: TransferId, itemId: ItemId, psPath: Path,
                   outcome: TransferOutcome, now: Timestamp): (r: RunResult)
    ensures |r.records| == |records|
    ensures forall i :: 0 <= i < |records| && records[i].id != transferId ==> r.records[i] == records[i]
    ensures forall i :: 0 <= i < |records| && records[i].id == transferId ==>
      && r.records[i].endTime == Some(now)
      && r.records[i].startTime == records[i].startTime
      && (outcome.Completed? ==>
            r.records[i].status == Done && r.records[i].error.None?
            && r.records[i].size == outcome.flen && r.records[i].transferred == outcome.flen)
      && (outcome.Raised? ==>
            r.records[i].status == Failed && r.records[i].error == Some(outcome.message)
            && r.records[i].size == 0 && r.records[i].transferred == 0)
    ensures r.event.Some? <==> outcome.Completed?
    ensures r.event.Some? ==> r.event.value == DownloadedInfo(itemId, psPath)
  {
    var initializing := SetStatusSpec(records, transferId, Initializing, None, 0, 0, false, false, now);
    match outcome
    case Completed(flen) =>
      RunResult(SetStatusSpec(initializing, transferId, Done, None, flen, flen, false, true, now),
                Some(DownloadedInfo(itemId, psPath)))
    case Raised(message) =>
      RunResult(SetStatusSpec(initializing, transferId, Failed, Some(message), 0, 0, false, true, now), None)
  }

  /** A handler of the older tree, writing its status to the transfer table. */
  class StatusTransferHandler {
    const transferId: TransferId
    const itemId: ItemId
    const psPath: Path
    const transfers: TransferModel
    var flen: int
    var lastTransferred: int

    constructor(transferId: TransferId, itemId: ItemId, psPath: Path, transfers: TransferModel)
      ensures this.transferId == transferId && this.itemId == itemId && this.psPath == psPath
      ensures this.transfers == transfers
      ensures flen == 0 && lastTransferred == 0
    {
      this.transferId := transferId;
      this.itemId := itemId;
      this.psPath := psPath;
      this.transfers := transfers;
      flen := 0;
      lastTransferred := 0;
    }

    /** `run`. The exception of a failed transfer is caught and not re-raised;
        nothing but the transfer table is written, so the item's cache state is
        left as it was. */
    method Run(outcome: TransferOutcome, now: Timestamp) returns (event: Option<DownloadedInfo>)
      modifies this, transfers
      ensures var r := RunSpec(old(transfers.records), transferId, itemId, psPath, outcome, now);
        transfers.records == r.records && event == r.event
      ensures transfers.nextId == old(transfers.nextId)
      ensures outcome.Completed? ==> flen == outcome.flen
      ensures outcome.Raised? ==> flen == old(flen)
      ensures lastTransferred == old(lastTransferred)
    {
      transfers.SetStatus(transferId, Initializing, None, 0, 0, false, false, now);
      match outcome
      case Completed(n) =>
        flen := n;
        transfers.SetStatus(transferId, Done, None, flen, flen, false, true, now);
        event := TransferDone();
      case Raised(message) =>
        transfers.SetStatus(transferId, Failed, Some(message), 0, 0, false, true, now);
        event := None;
    }

    /** `transferDone`: the event announcing the downloaded file. */
    function TransferDone(): (info: Option<DownloadedInfo>)
      ensures info == Some(DownloadedInfo(itemId, psPath))
    {
      Some(DownloadedInfo(itemId, psPath))
    }

    /** `updateTransferProgress`: write TRANSFERRING with the given counts only
        when the throttle test passes. */
    method UpdateTransferProgress(size: int, transferred: int)
      modifies this, transfers
      ensures ShouldReport(size, old(lastTransferred), transferred) ==>
        && transfers.records == SetStatusSpec(old(transfers.records), transferId, Transferring, None, size, transferred, false, false, Epoch)
        && lastTransferred == transferred
      ensures !ShouldReport(size, old(lastTransferred), transferred) ==>
        transfers.records == old(transfers.records) && lastTransferred == old(lastTransferred)
      ensures transfers.nextId == old(transfers.nextId) && flen == old(flen)
    {
      var delta := transferred - lastTransferred;
      if delta >= MinChunkSize && delta as real >= FractionalQuota(size) {
        transfers.SetStatus(transferId, Transferring, None, size, transferred, false, false, Epoch);
        lastTransferred := transferred;
      }
    }
  }
}
