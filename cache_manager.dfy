/** Event routing (server/lib/cache_manager.py). `SimpleCacheManager` holds no
    state of its own: it forwards lock, unlock and download events to the
    transfer manager, the collector and the lock store. */
module CacheManager {
  import opened Base
  import opened Locks
  import opened FileGc
  import opened TransferRun
  import opened TransferManager

  class SimpleCacheManager {
    const transferManager: SimpleTransferManager
    const fileGC: PeriodicFileGC
    const lockModel: LockModel

    constructor(transferManager: SimpleTransferManager, fileGC: PeriodicFileGC, lockModel: LockModel)
      ensures this.transferManager == transferManager && this.fileGC == fileGC && this.lockModel == lockModel
    {
      this.transferManager := transferManager;
      this.fileGC := fileGC;
      this.lockModel := lockModel;
    }

    /** `itemLocked`: start a transfer for exactly this user, item and session. */
    method ItemLocked(user: Option<UserId>, itemId: ItemId, sessionId: SessionId) returns (r: Result<bool>)
      requires transferManager.transfers.Valid()
      modifies transferManager, transferManager.transfers
      ensures transferManager.transfers.Valid()
      ensures var x := StartTransferSpec(old(transferManager.State()), transferManager.env, transferManager.root,
                                         user, itemId, sessionId);
        transferManager.State() == x.state && r == x.result
      ensures transferManager.failedRestarts == old(transferManager.failedRestarts)
    {
      r := transferManager.StartTransfer(user, itemId, sessionId);
    }

    /** `itemUnlocked`: tell the collector, which ignores it. */
    method ItemUnlocked(itemId: ItemId)
      ensures unchanged(lockModel, fileGC.disk, fileGC.psInfo, transferManager, transferManager.transfers)
    {
      fileGC.Unreacheable(itemId);
    }

    /** `fileDownloaded`: record the downloaded file in the lock store. */
    method FileDownloaded(info: DownloadedInfo)
      modifies lockModel
      ensures lockModel.items == FileDownloadedUpdate(old(lockModel.items), info.itemId, info.psPath).items
      ensures lockModel.locks == old(lockModel.locks) && lockModel.nextLockId == old(lockModel.nextLockId)
    {
      lockModel.FileDownloaded(info.itemId, info.psPath);
    }

    /** `sessionCreated` and `sessionDeleted`: nothing happens. */
    method SessionEvent(sessionId: SessionId)
      ensures unchanged(lockModel, fileGC.disk, fileGC.psInfo, transferManager, transferManager.transfers)
    {
    }

    /** `clearCache` forwards `force` to the collector, which has no such
        method, so the call raises AttributeError whatever `force` is. */
    function ClearCache(force: bool): (r: Result<bool>)
      ensures r == Err(AttributeError("clearCache"))
    {
      Err(AttributeError("clearCache"))
    }
  }
}
