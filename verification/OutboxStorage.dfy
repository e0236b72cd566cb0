/**
 The Postgres storage as an object that changes its table in place, and the
 housekeeping loop that runs on it.  Each method is one statement in its own
 transaction; now is the transaction's time.
 */
module OutboxStorage {
  import opened Wrappers
  import opened OutboxTable
  import opened OutboxProtocol

  // ---------- what the statements select, column by column ----------

  /** Rows published longer ago than the retention. */
  lemma ExpiredMeans(t: Table, now: Time, retention: int, id: EventId)
    ensures id in ExpiredIds(t, now, retention) <==>
      id in t && t[id].status == Published && t[id].publishedAt.Some? && t[id].publishedAt.value + retention < now
  {
  }

  /** ORDER BY occurred_at, created_at, id. */
  ghost predicate ClaimOrder(t: Table, a: EventId, b: EventId) {
    && a in t && b in t
    && t[a].event.occurredAt <= t[b].event.occurredAt
    && (t[a].event.occurredAt == t[b].event.occurredAt ==> t[a].createdAt <= t[b].createdAt)
    && (t[a].event.occurredAt == t[b].event.occurredAt && t[a].createdAt == t[b].createdAt ==> a < b)
  }

  /**
   Pending and due, in the snapshot and now; and in the snapshot no event of the
   same user is being processed, and none that waits comes before it.
   */
  ghost predicate MayBeClaimed(snap: Table, cur: Table, now: Time, id: EventId) {
    && id in snap && snap[id].status == Pending && snap[id].nextAttemptAt <= now
    && id in cur && cur[id].status == Pending && cur[id].nextAttemptAt <= now
    && forall other | other in snap && other != id && snap[id].event.user.Some? &&
         snap[other].event.user == snap[id].event.user ::
         snap[other].status != Processing && (snap[other].status == Pending ==> ClaimOrder(snap, id, other))
  }

  lemma ClaimableMeans(snap: Table, cur: Table, now: Time, id: EventId)
    ensures Claimable(snap, cur, now, id) <==> MayBeClaimed(snap, cur, now, id)
  {
    if id in snap {
      forall other | other in snap && other != id
        ensures Precedes(snap, other, id) <==> !ClaimOrder(snap, id, other)
      {
      }
      assert !Precedes(snap, id, id);
    }
  }

  /** The claim query's batch, told by the columns. */
  lemma BatchMeans(snap: Table, cur: Table, now: Time, limit: nat, skip: set<EventId>, ids: seq<EventId>)
    ensures IsBatch(snap, cur, now, limit, skip, ids) <==>
      (&& |ids| <= limit
       && (forall id | id in ids :: MayBeClaimed(snap, cur, now, id) && id !in skip)
       && (forall m, n | 0 <= m < n < |ids| :: ids[m] != ids[n] && ClaimOrder(snap, ids[m], ids[n]))
       && (forall id | MayBeClaimed(snap, cur, now, id) && id !in skip && id !in ids ::
             |ids| == limit && forall k | k in ids :: ClaimOrder(snap, k, id)))
  {
    forall id {
      ClaimableMeans(snap, cur, now, id);
    }
    forall a, b | a in snap && b in snap && a != b
      ensures Precedes(snap, a, b) <==> ClaimOrder(snap, a, b)
    {
    }
    assert forall m | 0 <= m < |ids| :: ids[m] in ids;
    assert forall a | a in snap :: !Precedes(snap, a, a);
  }

  class Storage {
    var table: Table

    constructor ()
      ensures table == map[]
    {
      table := map[];
    }

    method Insert(id: EventId, e: Event, maxAttempts: int, now: Time) returns (ok: bool)
      requires Legal(table)
      modifies this
      ensures Legal(table)
      ensures ok <==> 0 < maxAttempts
      ensures table == if ok && id !in old(table) then old(table)[id := NewRow(e, maxAttempts, now)] else old(table)
      ensures table == Commit(old(table), Inserted(old(table), id, e, maxAttempts, now))
      ensures ok && id !in old(table) ==>
        table[id] == Row(e, Pending, 0, maxAttempts, now, now, None, None, None, None)
    {
      ok := 0 < maxAttempts;
      if ok && id !in table {
        table := table[id := NewRow(e, maxAttempts, now)];
      }
    }

    /**
     snap is the snapshot the statement reads and skip the rows other
     transactions hold locked.  A unique violation defers the batch: no rows,
     no error, no change.
     */
    method ClaimBatch(owner: string, batchSize: nat, now: Time, snap: Table, skip: set<EventId>)
      returns (rows: seq<Ticket>, ghost order: seq<EventId>)
      requires Legal(table)
      modifies this
      ensures Legal(table)
      ensures IsBatch(snap, old(table), now, batchSize, skip, order)
      ensures forall id | id in order :: id in old(table)
      ensures var after := Locked(old(table), IdSet(order), now, owner);
        if Legal(after) then table == after && rows == Tickets(old(table), order) else table == old(table) && rows == []
      ensures table - IdSet(order) == old(table) - IdSet(order) && table.Keys == old(table).Keys
      ensures (rows != [] || order == [] ==> |rows| == |order|) && forall n | 0 <= n < |rows| ::
        && rows[n].id == order[n] && rows[n].event == old(table)[order[n]].event
        && rows[n].attempts == old(table)[order[n]].attempts && rows[n].maxAttempts == old(table)[order[n]].maxAttempts
        && table[order[n]] ==
             old(table)[order[n]].(status := Processing, lockedAt := Some(now), lockedBy := Some(owner))
    {
      var ids := SelectBatch(batchSize, now, snap, skip);
      order := ids;
      var after := Locked(table, IdSet(ids), now, owner);
      rows := [];
      if Legal(after) {
        var n := 0;
        while n < |ids|
          invariant n <= |ids| && |rows| == n
          invariant forall m | 0 <= m < n :: rows[m] == TicketFor(table, ids[m])
        {
          assert ids[n] in ids;
          rows := rows + [TicketFor(table, ids[n])];
          n := n + 1;
        }
        table := after;
      }
    }

    /** ORDER BY ... LIMIT: repeatedly take the earliest claimable row that is not locked by others. */
    method SelectBatch(limit: nat, now: Time, snap: Table, skip: set<EventId>) returns (ids: seq<EventId>)
      ensures IsBatch(snap, table, now, limit, skip, ids)
      ensures forall id | id in ids :: id in table
    {
      var all := set id | id in snap && Claimable(snap, table, now, id) && id !in skip;
      var rest := all;
      ids := [];
      while |ids| < limit && rest != {}
        invariant rest <= all && |ids| <= limit
        invariant forall id :: id in all <==> id in rest || id in ids
        invariant forall id | id in ids :: id in all && id !in rest
        invariant Sorted(snap, ids)
        invariant forall k, id | k in ids && id in rest :: Precedes(snap, k, id)
        decreases rest
      {
        var first := Earliest(snap, rest);
        rest := rest - {first};
        ids := ids + [first];
      }
    }

    method MarkPublished(id: EventId, now: Time) returns (ok: bool)
      modifies this
      ensures ok <==> Legal(Marked(old(table), id, Publish(now)))
      ensures table == Commit(old(table), Marked(old(table), id, Publish(now)))
      ensures Legal(old(table)) ==> ok
      ensures table - {id} == old(table) - {id} && (id in table <==> id in old(table))
      ensures id in old(table) ==> table[id] == if !ok then old(table)[id] else
        old(table)[id].(status := Published, publishedAt := Some(now),
                        lockedAt := None, lockedBy := None)
    {
      ghost var t0 := table;
      ok := ApplyMarking(id, Publish(now));
      if Legal(t0) {
        MarkAcceptedIff(t0, id, Publish(now));
      }
    }

    method MarkPendingRetry(id: EventId, lastErr: string, nextAttemptAt: Time) returns (ok: bool)
      modifies this
      ensures ok <==> Legal(Marked(old(table), id, Retry(lastErr, nextAttemptAt)))
      ensures table == Commit(old(table), Marked(old(table), id, Retry(lastErr, nextAttemptAt)))
      ensures Legal(old(table)) ==>
        (ok <==> (id in old(table) ==>
           old(table)[id].attempts < old(table)[id].maxAttempts && !old(table)[id].status.Published?))
      ensures table - {id} == old(table) - {id} && (id in table <==> id in old(table))
      ensures id in old(table) ==> table[id] == if !ok then old(table)[id] else
        old(table)[id].(status := Pending, attempts := old(table)[id].attempts + 1,
                        lastError := Some(lastErr), nextAttemptAt := nextAttemptAt,
                        lockedAt := None, lockedBy := None)
    {
      ghost var t0 := table;
      ok := ApplyMarking(id, Retry(lastErr, nextAttemptAt));
      if Legal(t0) {
        MarkAcceptedIff(t0, id, Retry(lastErr, nextAttemptAt));
      }
    }

    method MarkFailed(id: EventId, lastErr: string) returns (ok: bool)
      modifies this
      ensures ok <==> Legal(Marked(old(table), id, Fail(lastErr)))
      ensures table == Commit(old(table), Marked(old(table), id, Fail(lastErr)))
      ensures Legal(old(table)) ==>
        (ok <==> (id in old(table) ==>
           old(table)[id].attempts < old(table)[id].maxAttempts && !old(table)[id].status.Published?))
      ensures table - {id} == old(table) - {id} && (id in table <==> id in old(table))
      ensures id in old(table) ==> table[id] == if !ok then old(table)[id] else
        old(table)[id].(status := Failed, attempts := old(table)[id].attempts + 1,
                        lastError := Some(lastErr),
                        lockedAt := None, lockedBy := None)
    {
      ghost var t0 := table;
      ok := ApplyMarking(id, Fail(lastErr));
      if Legal(t0) {
        MarkAcceptedIff(t0, id, Fail(lastErr));
      }
    }

    /** UPDATE ... WHERE id = $n; a constraint violation rolls the statement back. */
    method ApplyMarking(id: EventId, m: Mark) returns (ok: bool)
      modifies this
      ensures ok <==> Legal(Marked(old(table), id, m))
      ensures table == Commit(old(table), Marked(old(table), id, m))
    {
      var after := Marked(table, id, m);
      ok := Legal(after);
      if ok {
        table := after;
      }
    }

    /** Frees exactly the rows held longer than the threshold; n counts the rows that changed. */
    method ResetStuck(stuckAfter: int, now: Time) returns (n: nat)
      modifies this
      ensures table == Reset(old(table), now, stuckAfter)
      ensures table.Keys == old(table).Keys
      ensures forall id | id in old(table) && old(table)[id].status.Processing? && old(table)[id].lockedAt.Some? &&
        old(table)[id].lockedAt.value + stuckAfter < now ::
        table[id] == old(table)[id].(status := Pending, lockedAt := None, lockedBy := None)
      ensures forall id | id in old(table) && !(old(table)[id].status.Processing? && old(table)[id].lockedAt.Some? &&
        old(table)[id].lockedAt.value + stuckAfter < now) ::
        table[id] == old(table)[id]
      ensures n == |set id | id in old(table) && table[id] != old(table)[id]|
    {
      n := |StuckIds(table, now, stuckAfter)|;
      table := Reset(table, now, stuckAfter);
      assert (set id | id in old(table) && table[id] != old(table)[id]) == StuckIds(old(table), now, stuckAfter);
    }

    /** DELETE of the `limit` oldest expired rows. */
    method DeletePublishedBatch(retention: int, limit: nat, now: Time) returns (n: nat, ghost gone: set<EventId>)
      modifies this
      ensures gone <= ExpiredIds(old(table), now, retention) && n == |gone| <= limit
      ensures table == old(table) - gone
      ensures forall a, b | a in gone && b in ExpiredIds(table, now, retention) ::
        old(table)[a].publishedAt.value <= table[b].publishedAt.value
      ensures n < limit ==> gone == ExpiredIds(old(table), now, retention)
    {
      var picked := PickOldest(table, ExpiredIds(table, now, retention), limit);
      n := |picked|;
      gone := picked;
      ExpiredWithout(table, picked, now, retention);
      table := table - picked;
    }

    /**
     The housekeeping job: batches until one deletes nothing.  Iteration i runs
     at now(i); the clock never goes back.  It removes exactly the rows expired
     at the time of the last batch.
     */
    method Housekeep(retention: int, now: nat -> Time, limit: nat) returns (total: nat, last: nat)
      requires 0 < limit
      requires forall i: nat, j: nat | i <= j :: now(i) <= now(j)
      modifies this
      ensures table == old(table) - ExpiredIds(old(table), now(last), retention)
      ensures total == |ExpiredIds(old(table), now(last), retention)|
    {
      total, last := 0, 0;
      ghost var removed: set<EventId> := {};
      while true
        invariant table == old(table) - removed && total == |removed|
        invariant removed <= ExpiredIds(old(table), now(last), retention)
        decreases table.Keys
      {
        label Batch:
        var n, gone := DeletePublishedBatch(retention, limit, now(last));
        assert removed !! gone && gone <= ExpiredIds(old(table), now(last), retention);
        removed := removed + gone;
        total := total + n;
        if n == 0 {
          assert ExpiredIds(table, now(last), retention) == {};
          NothingExpiredIsLeft(old(table), removed, now(last), retention);
          break;
        }
        assert table.Keys < old@Batch(table.Keys);
        last := last + 1;
      }
    }
  }

  lemma NothingExpiredIsLeft(t: Table, removed: set<EventId>, now: Time, retention: int)
    requires removed <= ExpiredIds(t, now, retention) && ExpiredIds(t - removed, now, retention) == {}
    ensures removed == ExpiredIds(t, now, retention)
  {
    assert forall id | id in ExpiredIds(t, now, retention) ::
      id in removed || id in ExpiredIds(t - removed, now, retention);
  }

  lemma ExpiredWithout(t: Table, gone: set<EventId>, now: Time, retention: int)
    ensures ExpiredIds(t - gone, now, retention) == ExpiredIds(t, now, retention) - gone
  {
  }

  /** ORDER BY published_at LIMIT. */
  method PickOldest(t: Table, ids: set<EventId>, limit: nat) returns (picked: set<EventId>)
    requires ids <= t.Keys && forall id | id in ids :: t[id].publishedAt.Some?
    ensures picked <= ids && |picked| <= limit && (|picked| < limit ==> picked == ids)
    ensures forall a, b | a in picked && b in ids - picked :: t[a].publishedAt.value <= t[b].publishedAt.value
  {
    var rest := ids;
    picked := {};
    while |picked| < limit && rest != {}
      invariant rest + picked == ids && rest !! picked && |picked| <= limit
      invariant forall a, b | a in picked && b in rest :: t[a].publishedAt.value <= t[b].publishedAt.value
      decreases rest
    {
      var oldest := Oldest(t, rest);
      rest := rest - {oldest};
      picked := picked + {oldest};
    }
    assert ids - picked == rest;
  }

  method Earliest(t: Table, ids: set<EventId>) returns (first: EventId)
    requires ids != {} && ids <= t.Keys
    ensures first in ids
    ensures forall id | id in ids && id != first :: Precedes(t, first, id)
  {
    first :| first in ids;
    var rest := ids - {first};
    while rest != {}
      invariant rest <= ids && first in ids
      invariant forall id | id in ids && id !in rest && id != first :: Precedes(t, first, id)
      decreases rest
    {
      var id :| id in rest;
      if Precedes(t, id, first) {
        first := id;
      }
      rest := rest - {id};
    }
  }

  method Oldest(t: Table, ids: set<EventId>) returns (first: EventId)
    requires ids != {} && ids <= t.Keys && forall id | id in ids :: t[id].publishedAt.Some?
    ensures first in ids
    ensures forall id | id in ids :: t[first].publishedAt.value <= t[id].publishedAt.value
  {
    first :| first in ids;
    var rest := ids - {first};
    while rest != {}
      invariant rest <= ids && first in ids
      invariant forall id | id in ids && id !in rest :: t[first].publishedAt.value <= t[id].publishedAt.value
      decreases rest
    {
      var id :| id in rest;
      if t[id].publishedAt.value < t[first].publishedAt.value {
        first := id;
      }
      rest := rest - {id};
    }
  }
}
