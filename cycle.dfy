/**
 * One synchronisation cycle of src/services/sync.ts as a function of the
 * tables: the push phase walks a snapshot of the queue and removes each entry
 * whose remote call succeeds and marks each other one as retried; the pull
 * phase then bulk-upserts the clients and the products the server returned.
 * The remote gateway (src/services/database.ts) is an oracle `Gateway`.
 */
module SyncCycle {
  import opened Records
  import opened IndexOrder
  import opened Replica

  /** The gateway call an entry is replayed as (src/services/database.ts:77-116). */
  datatype RemoteCall =
    | SyncVisit(visit: Payload)
    | SyncOrder(order: Payload)
    | SyncOrderItems(items: seq<Payload>)
    | UpdateRemoteTask(taskId: string, updates: Payload)

  /** `syncSingleItem`: the call chosen by `table_name`; `None` is the unknown-table throw. */
  function Dispatch(e: SyncQueueEntry): Option<RemoteCall>
  {
    if e.table_name == "visits" then Some(SyncVisit(e.data))
    else if e.table_name == "orders" then Some(SyncOrder(e.data))
    else if e.table_name == "order_items" then Some(SyncOrderItems([e.data]))
    else if e.table_name == "rep_tasks" then Some(UpdateRemoteTask(e.record_id, e.data))
    else None
  }

  const KnownTables: set<string> := {"visits", "orders", "order_items", "rep_tasks"}

  /**
   * Dispatch throws exactly for a table it does not know, looks only at the
   * table, the record id and the data (never at `operation`), and always
   * carries the entry's own data to the server.
   */
  lemma DispatchRoutes(e: SyncQueueEntry, other: SyncQueueEntry)
    ensures Dispatch(e).Some? <==> e.table_name in KnownTables
    ensures other.table_name == e.table_name && other.record_id == e.record_id && other.data == e.data
            ==> Dispatch(other) == Dispatch(e)
    ensures e.table_name == "rep_tasks" ==> Dispatch(e) == Some(UpdateRemoteTask(e.record_id, e.data))
    ensures e.table_name == "order_items" ==> Dispatch(e) == Some(SyncOrderItems([e.data]))
  {
  }

  /** Every entry a write path of the replica enqueues names a table that dispatch knows. */
  lemma WrittenEntriesDispatch(visit: Visit, order: Order, items: seq<OrderItem>, stamps: seq<Stamp>,
                               taskId: string, task: RepTask, stamp: Stamp)
    requires |stamps| == |items| + 1
    ensures Dispatch(NewEntry("visits", visit.id, Insert, VisitData(visit), stamp)) == Some(SyncVisit(VisitData(visit)))
    ensures forall i :: 0 <= i < |stamps| ==> Dispatch(OrderEntries(order, items, stamps)[i]).Some?
    ensures Dispatch(NewEntry("rep_tasks", taskId, Update, TaskData(task), stamp)) == Some(UpdateRemoteTask(taskId, TaskData(task)))
  {
    var es := OrderEntries(order, items, stamps);
    forall i | 0 <= i < |stamps| ensures Dispatch(es[i]).Some? {
      if i > 0 {
        assert es[i].table_name == "order_items";
      }
    }
  }

  /**
   * The remote side, as seen by one cycle: whether the call made for the i-th
   * snapshot entry succeeds, and what the two fetches return (`None` for a
   * fetch that throws).
   */
  datatype Gateway = Gateway(outcomes: seq<bool>, clients: Option<seq<Client>>, products: Option<seq<Product>>)

  predicate Accepts(g: Gateway, i: nat)
  {
    i < |g.outcomes| && g.outcomes[i]
  }

  /** The i-th snapshot entry syncs: it dispatches to a call and the gateway accepts it. */
  predicate Succeeds(g: Gateway, i: nat, e: SyncQueueEntry)
  {
    Dispatch(e).Some? && Accepts(g, i)
  }

  /** The `updateSyncQueueItem` patch of the catch branch, from the snapshot's copy of the entry. */
  function FailurePatch(e: SyncQueueEntry, now: nat): QueuePatch
  {
    NoQueueUpdates.(retry_count := Some(e.retry_count + 1), last_attempt := Some(Some(now)))
  }

  /** The entry after a failed attempt. */
  function Retried(e: SyncQueueEntry, now: nat): SyncQueueEntry
  {
    e.(retry_count := e.retry_count + 1, last_attempt := Some(now))
  }

  /** A failed attempt changes exactly the retry count (by one) and the attempt time. */
  lemma FailurePatchRetries(e: SyncQueueEntry, now: nat)
    ensures SpreadEntry(e, FailurePatch(e, now)) == Retried(e, now)
    ensures Retried(e, now).id == e.id && Retried(e, now).created_at == e.created_at
    ensures Retried(e, now).retry_count == e.retry_count + 1 && Retried(e, now).last_attempt == Some(now)
  {
  }

  /** A retried entry keeps its place in the queue's listing order. */
  lemma RetriedKeepsOrder(a: SyncQueueEntry, b: SyncQueueEntry, now: nat, later: nat)
    ensures QueueBefore(Retried(a, now), b) <==> QueueBefore(a, b)
    ensures QueueBefore(a, Retried(b, later)) <==> QueueBefore(a, b)
  {
  }

  /** One iteration of the loop of `syncPendingData` on the i-th snapshot entry. */
  function Attempt(q: map<string, SyncQueueEntry>, e: SyncQueueEntry, i: nat, g: Gateway, now: nat): map<string, SyncQueueEntry>
  {
    if Succeeds(g, i, e) then RemoveEntry(q, e.id) else UpdateEntry(q, e.id, FailurePatch(e, now))
  }

  /** The loop over the snapshot `s`, in snapshot order. */
  function Drain(q: map<string, SyncQueueEntry>, s: seq<SyncQueueEntry>, g: Gateway, now: nat): map<string, SyncQueueEntry>
    decreases |s|
  {
    if s == [] then q
    else Attempt(Drain(q, s[..|s| - 1], g, now), s[|s| - 1], |s| - 1, g, now)
  }

  /** The loop after one more iteration. */
  lemma DrainStep(q: map<string, SyncQueueEntry>, s: seq<SyncQueueEntry>, i: nat, g: Gateway, now: nat)
    requires i < |s|
    ensures Drain(q, s[..i + 1], g, now) == Attempt(Drain(q, s[..i], g, now), s[i], i, g, now)
  {
    assert s[..i + 1][..i] == s[..i];
  }

  /** The ids of the snapshot entries that synced. */
  function Succeeded(s: seq<SyncQueueEntry>, g: Gateway): set<string>
    decreases |s|
  {
    if s == [] then {}
    else Succeeded(s[..|s| - 1], g) + (if Succeeds(g, |s| - 1, s[|s| - 1]) then {s[|s| - 1].id} else {})
  }

  /** How many snapshot entries synced. */
  function SuccessCount(s: seq<SyncQueueEntry>, g: Gateway): nat
    decreases |s|
  {
    if s == [] then 0
    else SuccessCount(s[..|s| - 1], g) + (if Succeeds(g, |s| - 1, s[|s| - 1]) then 1 else 0)
  }

  /** `s` holds distinct entries of `q`, as stored in `q`. */
  ghost predicate IsSnapshot(q: map<string, SyncQueueEntry>, s: seq<SyncQueueEntry>)
  {
    && (forall i :: 0 <= i < |s| ==> s[i].id in q && q[s[i].id] == s[i])
    && (forall i, j :: 0 <= i < j < |s| ==> s[i].id != s[j].id)
  }

  /** The queue's listing holds each entry once. */
  lemma ListingIsSnapshot(q: map<string, SyncQueueEntry>, s: seq<SyncQueueEntry>)
    requires IsQueueListing(q, s)
    ensures IsSnapshot(q, s)
  {
    forall i, j | 0 <= i < j < |s| ensures s[i].id != s[j].id {
      StrLessIrreflexive(s[i].id);
      assert QueueBefore(s[i], s[j]);
    }
  }

  lemma SnapshotPrefix(q: map<string, SyncQueueEntry>, s: seq<SyncQueueEntry>)
    requires IsSnapshot(q, s) && |s| > 0
    ensures IsSnapshot(q, s[..|s| - 1])
    ensures !HasId(s[..|s| - 1], s[|s| - 1].id)
  {
    var n := |s| - 1;
    var init := s[..n];
    forall i | 0 <= i < n ensures init[i] == s[i] && init[i].id != s[n].id {
    }
  }

  /** Only snapshot entries are counted as successes. */
  lemma {:induction false} SucceededInSnapshot(s: seq<SyncQueueEntry>, g: Gateway)
    ensures forall k :: k in Succeeded(s, g) ==> HasId(s, k)
    decreases |s|
  {
    if s != [] {
      SucceededInSnapshot(s[..|s| - 1], g);
      HasIdSnoc(s);
    }
  }

  /** In a snapshot, an entry's id is among the successes exactly when its call succeeded. */
  lemma {:induction false} SucceededIds(q: map<string, SyncQueueEntry>, s: seq<SyncQueueEntry>, g: Gateway)
    requires IsSnapshot(q, s)
    ensures forall i :: 0 <= i < |s| ==> (s[i].id in Succeeded(s, g) <==> Succeeds(g, i, s[i]))
    decreases |s|
  {
    if s != [] {
      var n := |s| - 1;
      var init := s[..n];
      SnapshotPrefix(q, s);
      SucceededIds(q, init, g);
      SucceededInSnapshot(init, g);
      assert s[n].id !in Succeeded(init, g);
      forall i | 0 <= i < n ensures (s[i].id in Succeeded(s, g) <==> Succeeds(g, i, s[i])) {
        assert init[i] == s[i] && s[i].id != s[n].id;
      }
    }
  }

  /** Each success of a snapshot has its own id, so the successes are counted once each. */
  lemma {:induction false} SucceededCount(q: map<string, SyncQueueEntry>, s: seq<SyncQueueEntry>, g: Gateway)
    requires IsSnapshot(q, s)
    ensures Succeeded(s, g) <= q.Keys
    ensures |Succeeded(s, g)| == SuccessCount(s, g)
    decreases |s|
  {
    if s != [] {
      var n := |s| - 1;
      var init := s[..n];
      SnapshotPrefix(q, s);
      SucceededCount(q, init, g);
      SucceededInSnapshot(init, g);
      assert s[n].id !in Succeeded(init, g);
    }
  }

  /** One attempt: a success deletes the entry, a failure patches it in place. */
  lemma AttemptEffect(q: map<string, SyncQueueEntry>, e: SyncQueueEntry, i: nat, g: Gateway, now: nat)
    requires QueueKeyed(q)
    ensures QueueKeyed(Attempt(q, e, i, g, now))
    ensures Attempt(q, e, i, g, now).Keys == if Succeeds(g, i, e) then q.Keys - {e.id} else q.Keys
    ensures forall k :: k in q && k != e.id ==> Attempt(q, e, i, g, now)[k] == q[k]
    ensures !Succeeds(g, i, e) && e.id in q ==> Attempt(q, e, i, g, now)[e.id] == SpreadEntry(q[e.id], FailurePatch(e, now))
  {
    if Succeeds(g, i, e) {
      RemoveEntryEffect(q, e.id);
    } else {
      UpdateEntryEffect(q, e.id, FailurePatch(e, now));
    }
  }

  /** The push phase keeps every entry under its own id. */
  lemma {:induction false} DrainKeyed(q: map<string, SyncQueueEntry>, s: seq<SyncQueueEntry>, g: Gateway, now: nat)
    requires QueueKeyed(q)
    ensures QueueKeyed(Drain(q, s, g, now))
    decreases |s|
  {
    if s != [] {
      DrainKeyed(q, s[..|s| - 1], g, now);
      AttemptEffect(Drain(q, s[..|s| - 1], g, now), s[|s| - 1], |s| - 1, g, now);
    }
  }

  /**
   * The push phase over a snapshot: an entry is gone exactly when its call
   * succeeded, and entries outside the snapshot are untouched.
   */
  lemma {:induction false} DrainKeys(q: map<string, SyncQueueEntry>, s: seq<SyncQueueEntry>, g: Gateway, now: nat)
    requires QueueKeyed(q) && IsSnapshot(q, s)
    ensures Drain(q, s, g, now).Keys == q.Keys - Succeeded(s, g)
    ensures forall k :: k in q && !HasId(s, k) ==> k in Drain(q, s, g, now) && Drain(q, s, g, now)[k] == q[k]
    decreases |s|
  {
    if s != [] {
      var n := |s| - 1;
      var init, e := s[..n], s[n];
      SnapshotPrefix(q, s);
      DrainKeys(q, init, g, now);
      DrainKeyed(q, init, g, now);
      SucceededInSnapshot(init, g);
      HasIdSnoc(s);
      AttemptEffect(Drain(q, init, g, now), e, n, g, now);
    }
  }

  /** When the loop reaches a snapshot entry, the entry is still queued as the snapshot saw it. */
  lemma DrainReachesEntry(q: map<string, SyncQueueEntry>, s: seq<SyncQueueEntry>, g: Gateway, now: nat)
    requires QueueKeyed(q) && IsSnapshot(q, s) && |s| > 0
    ensures s[|s| - 1].id in Drain(q, s[..|s| - 1], g, now)
    ensures Drain(q, s[..|s| - 1], g, now)[s[|s| - 1].id] == s[|s| - 1]
  {
    SnapshotPrefix(q, s);
    DrainKeys(q, s[..|s| - 1], g, now);
  }

  /** Every snapshot entry whose call failed is still queued, retried once from its snapshot copy. */
  lemma {:induction false} DrainRetries(q: map<string, SyncQueueEntry>, s: seq<SyncQueueEntry>, g: Gateway, now: nat)
    requires QueueKeyed(q) && IsSnapshot(q, s)
    ensures forall i :: 0 <= i < |s| && !Succeeds(g, i, s[i]) ==>
              s[i].id in Drain(q, s, g, now) && Drain(q, s, g, now)[s[i].id] == Retried(s[i], now)
    decreases |s|
  {
    if s != [] {
      var n := |s| - 1;
      var init, e := s[..n], s[n];
      SnapshotPrefix(q, s);
      DrainRetries(q, init, g, now);
      DrainKeyed(q, init, g, now);
      DrainReachesEntry(q, s, g, now);
      var before := Drain(q, init, g, now);
      var after := Drain(q, s, g, now);
      assert after == Attempt(before, e, n, g, now);
      AttemptEffect(before, e, n, g, now);
      FailurePatchRetries(e, now);
      forall i | 0 <= i < n && !Succeeds(g, i, s[i])
        ensures s[i].id in after && after[s[i].id] == Retried(s[i], now)
      {
        assert init[i] == s[i] && s[i].id != e.id;
      }
    }
  }

  /**
   * The push phase as a whole: exactly the failed entries stay, each retried
   * once; everything else outside the snapshot is untouched; the queue
   * shrinks by the number of successes.
   */
  lemma DrainEffect(q: map<string, SyncQueueEntry>, s: seq<SyncQueueEntry>, g: Gateway, now: nat)
    requires QueueKeyed(q) && IsSnapshot(q, s)
    ensures QueueKeyed(Drain(q, s, g, now))
    ensures forall i :: 0 <= i < |s| && Succeeds(g, i, s[i]) ==> s[i].id !in Drain(q, s, g, now)
    ensures forall i :: 0 <= i < |s| && !Succeeds(g, i, s[i]) ==>
              s[i].id in Drain(q, s, g, now) && Drain(q, s, g, now)[s[i].id] == Retried(s[i], now)
    ensures forall k :: k in q && !HasId(s, k) ==> k in Drain(q, s, g, now) && Drain(q, s, g, now)[k] == q[k]
    ensures forall k :: k in Drain(q, s, g, now) ==> k in q
    ensures |Drain(q, s, g, now)| == |q| - SuccessCount(s, g)
  {
    DrainKeyed(q, s, g, now);
    DrainKeys(q, s, g, now);
    DrainRetries(q, s, g, now);
    SucceededIds(q, s, g);
    SucceededCount(q, s, g);
    var done := Succeeded(s, g);
    assert q.Keys == (q.Keys - done) + done;
    assert |q.Keys| == |q.Keys - done| + |done|;
  }

  /** `syncFromServer`: clients, then products; a failed fetch ends the phase. */
  function Pull(t: Tables, g: Gateway): Tables
  {
    if g.clients.None? then t
    else
      var withClients := ClientsSaved(t, g.clients.value);
      if g.products.None? then withClients else ProductsSaved(withClients, g.products.value)
  }

  /** The pull phase writes only the clients and the products. */
  lemma PullFrame(t: Tables, g: Gateway)
    ensures Pull(t, g).(clients := t.clients, products := t.products) == t
    ensures g.clients.None? ==> Pull(t, g) == t
    ensures g.clients.Some? ==> Pull(t, g).clients == BulkPut(t.clients, g.clients.value, ClientId)
    ensures g.clients.None? || g.products.None? ==> Pull(t, g).products == t.products
    ensures g.clients.Some? && g.products.Some? ==> Pull(t, g).products == BulkPut(t.products, g.products.value, ProductId)
  {
    if g.clients.Some? {
      var withClients := t.(clients := BulkPut(t.clients, g.clients.value, ClientId));
      assert ClientsSaved(t, g.clients.value) == withClients;
      if g.products.Some? {
        assert Pull(t, g) == withClients.(products := BulkPut(t.products, g.products.value, ProductId));
      }
    }
  }

  /**
   * After the pull phase, every fetched client (the last of the list per id)
   * replaces the local copy, and local clients the server did not return stay.
   */
  lemma PullClients(t: Tables, g: Gateway)
    requires g.clients.Some?
    ensures var cs, m := g.clients.value, Pull(t, g).clients;
      && (forall k :: k in m <==> k in t.clients || Mentions(cs, ClientId, k))
      && (forall k :: k in t.clients && !Mentions(cs, ClientId, k) ==> m[k] == t.clients[k])
      && (forall i :: 0 <= i < |cs| && LastOfKey(cs, ClientId, i) ==> cs[i].id in m && m[cs[i].id] == cs[i])
  {
    PullFrame(t, g);
    BulkPutEffect(t.clients, g.clients.value, ClientId);
  }

  /** The same for products, which are written only when both fetches succeeded. */
  lemma PullProducts(t: Tables, g: Gateway)
    requires g.clients.Some? && g.products.Some?
    ensures var ps, m := g.products.value, Pull(t, g).products;
      && (forall k :: k in m <==> k in t.products || Mentions(ps, ProductId, k))
      && (forall k :: k in t.products && !Mentions(ps, ProductId, k) ==> m[k] == t.products[k])
      && (forall i :: 0 <= i < |ps| && LastOfKey(ps, ProductId, i) ==> ps[i].id in m && m[ps[i].id] == ps[i])
  {
    PullFrame(t, g);
    BulkPutEffect(t.products, g.products.value, ProductId);
  }

  lemma PullKeepsKeys(t: Tables, g: Gateway)
    requires Keyed(t)
    ensures Keyed(Pull(t, g))
  {
    PullFrame(t, g);
    if g.clients.Some? {
      assert KeyedBy(t.clients, ClientId);
      BulkPutKeyed(t.clients, g.clients.value, ClientId);
      if g.products.Some? {
        assert KeyedBy(t.products, ProductId);
        BulkPutKeyed(t.products, g.products.value, ProductId);
      }
    }
  }

  /** A whole cycle: the push phase over the snapshot, then the pull phase. */
  function Cycle(t: Tables, s: seq<SyncQueueEntry>, g: Gateway, now: nat): Tables
  {
    Pull(t.(syncQueue := Drain(t.syncQueue, s, g, now)), g)
  }

  /**
   * A cycle over the queue's listing never touches visits, orders, order
   * items, tasks, task types or discount reasons; it leaves in the queue
   * exactly the entries whose call failed, each retried once, so the queue
   * shrinks by the number of successes; and it keeps every key.
   */
  lemma CycleEffect(t: Tables, s: seq<SyncQueueEntry>, g: Gateway, now: nat)
    requires Keyed(t) && IsQueueListing(t.syncQueue, s)
    ensures var t' := Cycle(t, s, g, now);
      && t'.(clients := t.clients, products := t.products, syncQueue := t.syncQueue) == t
      && |t'.syncQueue| == |t.syncQueue| - SuccessCount(s, g)
      && (forall i :: 0 <= i < |s| && Succeeds(g, i, s[i]) ==> s[i].id !in t'.syncQueue)
      && (forall i :: 0 <= i < |s| && !Succeeds(g, i, s[i]) ==>
            s[i].id in t'.syncQueue && t'.syncQueue[s[i].id] == Retried(s[i], now))
      && (forall k :: k in t'.syncQueue ==> k in t.syncQueue)
      && Keyed(t')
  {
    ListingIsSnapshot(t.syncQueue, s);
    DrainEffect(t.syncQueue, s, g, now);
    var pushed := t.(syncQueue := Drain(t.syncQueue, s, g, now));
    assert Keyed(pushed);
    PullFrame(pushed, g);
    PullKeepsKeys(pushed, g);
  }

  /**
   * An entry for a table dispatch does not know is never removed: after any
   * cycle it is still queued, with one more retry.
   */
  lemma UnknownTableStays(t: Tables, s: seq<SyncQueueEntry>, g: Gateway, now: nat, i: nat)
    requires Keyed(t) && IsQueueListing(t.syncQueue, s)
    requires i < |s| && s[i].table_name !in KnownTables
    ensures s[i].id in Cycle(t, s, g, now).syncQueue
    ensures Cycle(t, s, g, now).syncQueue[s[i].id].retry_count == s[i].retry_count + 1
  {
    DispatchRoutes(s[i], s[i]);
    CycleEffect(t, s, g, now);
  }

  /**
   * Three queued visits, of which only the second fails: the first and third
   * are removed, the second stays with one more retry, stamped with the
   * cycle's time.
   */
  lemma OneFailureIsIsolated(a: Visit, b: Visit, c: Visit)
    ensures
      var ea := NewEntry("visits", a.id, Insert, VisitData(a), Stamp("qa", 1));
      var eb := NewEntry("visits", b.id, Insert, VisitData(b), Stamp("qb", 2));
      var ec := NewEntry("visits", c.id, Insert, VisitData(c), Stamp("qc", 3));
      Drain(map["qa" := ea, "qb" := eb, "qc" := ec], [ea, eb, ec], Gateway([true, false, true], None, None), 9)
        == map["qb" := eb.(retry_count := 1, last_attempt := Some(9))]
  {
    var ea := NewEntry("visits", a.id, Insert, VisitData(a), Stamp("qa", 1));
    var eb := NewEntry("visits", b.id, Insert, VisitData(b), Stamp("qb", 2));
    var ec := NewEntry("visits", c.id, Insert, VisitData(c), Stamp("qc", 3));
    var s, g := [ea, eb, ec], Gateway([true, false, true], None, None);
    var q0 := map["qa" := ea, "qb" := eb, "qc" := ec];
    assert s[..2] == [ea, eb] && s[..2][..1] == [ea] && s[..2][..1][..0] == [];
    var q1 := RemoveEntry(q0, "qa");
    assert Drain(q0, s[..1], g, 9) == q1;
    var q2 := UpdateEntry(q1, "qb", FailurePatch(eb, 9));
    assert Drain(q0, s[..2], g, 9) == q2;
    assert q2 == map["qb" := eb.(retry_count := 1, last_attempt := Some(9)), "qc" := ec];
  }
}
