/**
 * `SyncService` of src/services/sync.ts: the connection flag, the re-entrancy
 * flag, and the cycle that replays the queue against the server and then
 * refreshes the reference tables. Each method is proved to have the effect
 * that module SyncCycle describes as a function of the tables.
 */
module Sync {
  import opened Records
  import opened Replica
  import opened Offline
  import opened SyncCycle

  class SyncService {
    var isOnline: bool
    var syncInProgress: bool
    const offline: OfflineService

    /** The service as `initialize` leaves it; `online` is `navigator.onLine`. */
    constructor (offline: OfflineService, online: bool)
      ensures this.offline == offline && isOnline == online && !syncInProgress
    {
      this.offline := offline;
      isOnline := online;
      syncInProgress := false;
    }

    method GetConnectionStatus() returns (online: bool)
      ensures online == isOnline
    {
      online := isOnline;
    }

    /** `syncSingleItem` for the i-th snapshot entry: `ok` is false where the source throws. */
    method SyncSingleItem(item: SyncQueueEntry, i: nat, g: Gateway) returns (ok: bool)
      ensures ok == Succeeds(g, i, item)
      ensures item.table_name !in KnownTables ==> !ok
    {
      var call := Dispatch(item);
      DispatchRoutes(item, item);
      ok := call.Some? && Accepts(g, i);
    }

    /**
     * `syncPendingData`. A call while offline or while a cycle already runs
     * does nothing; otherwise the queue's listing is replayed in order and the
     * reference tables are pulled, and the flag is cleared again.
     */
    method SyncPendingData(g: Gateway, now: nat) returns (pendingItems: seq<SyncQueueEntry>)
      requires offline.db.Valid()
      modifies this`syncInProgress, offline.db`syncQueue, offline.db`clients, offline.db`products
      ensures offline.db.Valid()
      ensures !old(isOnline) || old(syncInProgress) ==>
                && syncInProgress == old(syncInProgress)
                && offline.db.Contents() == old(offline.db.Contents())
                && pendingItems == []
      ensures old(isOnline) && !old(syncInProgress) ==>
                && !syncInProgress
                && IsQueueListing(old(offline.db.syncQueue), pendingItems)
                && offline.db.Contents() == Cycle(old(offline.db.Contents()), pendingItems, g, now)
    {
      if !isOnline || syncInProgress {
        return [];
      }
      syncInProgress := true;
      ghost var t0 := offline.db.Contents();
      pendingItems := offline.GetSyncQueue();
      PushPhase(pendingItems, g, now);
      assert offline.db.Contents() == t0.(syncQueue := Drain(t0.syncQueue, pendingItems, g, now));
      SyncFromServer(g);
      syncInProgress := false;
    }

    /** The loop of `syncPendingData` over the snapshot `pendingItems`. */
    method PushPhase(pendingItems: seq<SyncQueueEntry>, g: Gateway, now: nat)
      requires offline.db.Valid()
      modifies offline.db`syncQueue
      ensures offline.db.Valid()
      ensures offline.db.syncQueue == Drain(old(offline.db.syncQueue), pendingItems, g, now)
    {
      ghost var q0 := offline.db.syncQueue;
      var i := 0;
      while i < |pendingItems|
        invariant 0 <= i <= |pendingItems|
        invariant offline.db.Valid()
        invariant offline.db.syncQueue == Drain(q0, pendingItems[..i], g, now)
      {
        var item := pendingItems[i];
        var ok := SyncSingleItem(item, i, g);
        DrainStep(q0, pendingItems, i, g, now);
        if ok {
          offline.RemoveSyncQueueItem(item.id);
        } else {
          offline.UpdateSyncQueueItem(item.id, FailurePatch(item, now));
        }
        i := i + 1;
      }
      assert pendingItems[..|pendingItems|] == pendingItems;
    }

    /** `syncFromServer`: clients, then products; a failed fetch ends the phase. */
    method SyncFromServer(g: Gateway)
      requires offline.db.Valid()
      modifies offline.db`clients, offline.db`products
      ensures offline.db.Valid()
      ensures offline.db.Contents() == Pull(old(offline.db.Contents()), g)
    {
      ghost var t0 := offline.db.Contents();
      if g.clients.Some? {
        offline.SaveClients(g.clients.value);
        if g.products.Some? {
          offline.SaveProducts(g.products.value);
        }
      }
      PullFrame(t0, g);
    }

    /** `forceSyncNow`: runs a cycle when online and says whether it did. */
    method ForceSyncNow(g: Gateway, now: nat) returns (started: bool)
      requires offline.db.Valid()
      modifies this`syncInProgress, offline.db`syncQueue, offline.db`clients, offline.db`products
      ensures offline.db.Valid()
      ensures started == old(isOnline)
      ensures !started || old(syncInProgress) ==>
                syncInProgress == old(syncInProgress) && offline.db.Contents() == old(offline.db.Contents())
      ensures started && !old(syncInProgress) ==>
                && !syncInProgress
                && exists s :: IsQueueListing(old(offline.db.syncQueue), s)
                               && offline.db.Contents() == Cycle(old(offline.db.Contents()), s, g, now)
    {
      if isOnline {
        var s := SyncPendingData(g, now);
        return true;
      }
      return false;
    }

    /** The `online` event handler. */
    method OnOnline(g: Gateway, now: nat)
      requires offline.db.Valid()
      modifies this`isOnline, this`syncInProgress, offline.db`syncQueue, offline.db`clients, offline.db`products
      ensures offline.db.Valid()
      ensures isOnline
      ensures old(syncInProgress) ==>
                syncInProgress && offline.db.Contents() == old(offline.db.Contents())
      ensures !old(syncInProgress) ==>
                && !syncInProgress
                && exists s :: IsQueueListing(old(offline.db.syncQueue), s)
                               && offline.db.Contents() == Cycle(old(offline.db.Contents()), s, g, now)
    {
      isOnline := true;
      var s := SyncPendingData(g, now);
    }

    /** The `offline` event handler. */
    method OnOffline()
      modifies this`isOnline
      ensures !isOnline
    {
      isOnline := false;
    }

    /** One tick of the five-minute timer. */
    method OnTick(g: Gateway, now: nat)
      requires offline.db.Valid()
      modifies this`syncInProgress, offline.db`syncQueue, offline.db`clients, offline.db`products
      ensures offline.db.Valid()
      ensures !old(isOnline) || old(syncInProgress) ==>
                syncInProgress == old(syncInProgress) && offline.db.Contents() == old(offline.db.Contents())
      ensures old(isOnline) && !old(syncInProgress) ==>
                && !syncInProgress
                && exists s :: IsQueueListing(old(offline.db.syncQueue), s)
                               && offline.db.Contents() == Cycle(old(offline.db.Contents()), s, g, now)
    {
      if isOnline && !syncInProgress {
        var s := SyncPendingData(g, now);
      }
    }
  }
}
