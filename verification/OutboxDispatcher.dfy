/**
 One dispatcher run, statement by statement: claim a batch, run the handlers of
 each row, mark each row.
 */
module OutboxDispatcher {
  import opened Wrappers
  import opened OutboxTable
  import opened OutboxHistory
  import opened OutboxProtocol
  import opened OutboxStorage

  /** A handler returns its error, if any. */
  type Handler = Event -> Option<string>

  function Errors(handlers: seq<Handler>, e: Event): (errs: seq<string>) {
    if handlers == [] then []
    else
      var n := |handlers| - 1;
      Errors(handlers[..n], e) + (match handlers[n](e) case Some(err) => [err] case None => [])
  }

  /** errors.Join: the messages on separate lines. */
  function Joined(errs: seq<string>): string {
    if errs == [] then ""
    else if |errs| == 1 then errs[0]
    else Joined(errs[..|errs| - 1]) + "\n" + errs[|errs| - 1]
  }

  function VerdictOf(handlers: seq<Handler>, e: Event): Verdict {
    if handlers == [] then NoHandlers
    else if Errors(handlers, e) == [] then HandlersOk
    else HandlersFailed
  }

  lemma {:induction false} NoErrorsMeansAllSucceed(handlers: seq<Handler>, e: Event)
    ensures Errors(handlers, e) == [] <==> forall h | h in handlers :: h(e).None?
  {
    if handlers != [] {
      var n := |handlers| - 1;
      NoErrorsMeansAllSucceed(handlers[..n], e);
      assert handlers == handlers[..n] + [handlers[n]];
    }
  }

  /** The errors of the handlers that failed, in the handlers' order. */
  lemma {:induction false} ErrorsInOrder(xs: seq<Handler>, ys: seq<Handler>, h: Handler, e: Event)
    ensures Errors([h], e) == match h(e) case Some(err) => [err] case None => []
    ensures Errors(xs + ys, e) == Errors(xs, e) + Errors(ys, e)
    decreases |ys|
  {
    assert [h][..0] == [];
    if ys == [] {
      assert xs + ys == xs;
    } else {
      var n := |ys| - 1;
      ErrorsInOrder(xs, ys[..n], h, e);
      assert (xs + ys)[..|xs + ys| - 1] == xs + ys[..n];
    }
  }

  lemma {:induction false} JoinedByLines(xs: seq<string>, ys: seq<string>, x: string)
    ensures Joined([]) == "" && Joined([x]) == x
    ensures xs != [] && ys != [] ==> Joined(xs + ys) == Joined(xs) + "\n" + Joined(ys)
    decreases |ys|
  {
    if xs != [] && ys != [] {
      var init, last := ys[..|ys| - 1], ys[|ys| - 1];
      assert (xs + ys)[..|xs + ys| - 1] == xs + init;
      if init == [] {
        assert xs + init == xs;
      } else {
        JoinedByLines(xs, init, x);
        Regroup(Joined(xs) + "\n", Joined(init), "\n" + last);
        Regroup(Joined(xs) + "\n" + Joined(init), "\n", last);
        Regroup(Joined(init), "\n", last);
      }
    }
  }

  lemma Regroup(x: string, y: string, z: string)
    ensures x + y + z == x + (y + z)
  {
  }

  predicate Breaks(handlers: seq<Handler>, e: Event) {
    exists i :: 0 <= i < |handlers| && handlers[i](e).Some?
  }

  /**
   What a delivery that was settled in time leaves of its row, told by the
   handlers alone: published exactly when there is a handler and none failed, to
   be retried after the back-off while attempts remain, and failed otherwise.
   */
  ghost predicate DeliveryOutcome(handlers: seq<Handler>, k: Ticket, before: Row, after: Row, now: Time, backoff: int) {
    && (after.status == Published <==> handlers != [] && !Breaks(handlers, k.event))
    && (after.status == Pending <==> Breaks(handlers, k.event) && k.attempts + 1 < k.maxAttempts)
    && (after.status == Failed <==>
          handlers == [] || (Breaks(handlers, k.event) && k.maxAttempts <= k.attempts + 1))
    && after.attempts == before.attempts + (if after.status == Published then 0 else 1)
    && after.publishedAt == (if after.status == Published then Some(now) else before.publishedAt)
    && after.nextAttemptAt == (if after.status == Pending then now + backoff else before.nextAttemptAt)
    && after.lastError == (if after.status == Published then before.lastError
                           else if handlers == [] then Some("no handlers registered")
                           else Some(Joined(Errors(handlers, k.event))))
    && after.lockedAt.None? && after.lockedBy.None?
    && after.event == before.event && after.maxAttempts == before.maxAttempts && after.createdAt == before.createdAt
  }

  /**
   doneAt is the number of handlers that start before the context is done.
   Every started handler gets the event, and the verdict is success exactly
   when there is a handler, all of them started, and all returned no error.
   */
  method RunHandlers(handlers: seq<Handler>, e: Event, doneAt: nat) returns (v: Verdict, err: string)
    ensures |handlers| <= doneAt ==>
      v == VerdictOf(handlers, e) && (v.HandlersFailed? ==> err == Joined(Errors(handlers, e)))
    ensures v.NoHandlers? <==> handlers == []
    ensures v.HandlersOk? <==> handlers != [] && |handlers| <= doneAt && forall h | h in handlers :: h(e).None?
    ensures handlers != [] && doneAt < |handlers| ==> err == "context done"
  {
    if |handlers| == 0 {
      return NoHandlers, "";
    }
    var errs: seq<string> := [];
    var i := 0;
    while i < |handlers|
      invariant i <= |handlers| && i <= doneAt && errs == Errors(handlers[..i], e)
    {
      if i == doneAt {
        return HandlersFailed, "context done";
      }
      assert handlers[..i + 1][..i] == handlers[..i];
      match handlers[i](e) {
        case Some(hErr) => errs := errs + [hErr];
        case None =>
      }
      i := i + 1;
    }
    assert handlers[..i] == handlers;
    NoErrorsMeansAllSucceed(handlers, e);
    v, err := if errs == [] then HandlersOk else HandlersFailed, Joined(errs);
  }

  /** What one run reads from outside: handlers, clock, back-off, and how many rows it settles before its deadline. */
  datatype Env = Env(handlersOf: string -> seq<Handler>, now: nat -> Time, backoff: int -> int, alive: nat)

  /** The mark row n of a batch deserves. */
  function MarkOf(env: Env, k: Ticket, n: nat): Mark {
    var handlers := env.handlersOf(k.event.eventType);
    MarkFor(k, VerdictOf(handlers, k.event), env.now(n), Joined(Errors(handlers, k.event)), env.backoff(k.attempts))
  }

  lemma MarkOfMeans(env: Env, k: Ticket, row: Row, n: nat)
    ensures DeliveryOutcome(env.handlersOf(k.event.eventType), k, row, MarkedRow(row, MarkOf(env, k, n)),
                            env.now(n), env.backoff(k.attempts))
  {
    var handlers := env.handlersOf(k.event.eventType);
    NoErrorsMeansAllSucceed(handlers, k.event);
    assert forall i | 0 <= i < |handlers| :: handlers[i] in handlers;
  }

  class Dispatcher {
    const storage: Storage
    const instanceId: string
    const batchSize: nat

    constructor (storage: Storage, instanceId: string, batchSize: nat)
      ensures this.storage == storage && this.instanceId == instanceId && this.batchSize == batchSize
    {
      this.storage, this.instanceId, this.batchSize := storage, instanceId, batchSize;
    }

    method MarkRow(k: Ticket, v: Verdict, err: string, now: Time, backoff: int) returns (ok: bool)
      modifies storage
      ensures var m := MarkFor(k, v, now, err, backoff);
        && (ok <==> Legal(Marked(old(storage.table), k.id, m)))
        && storage.table == Commit(old(storage.table), Marked(old(storage.table), k.id, m))
    {
      if v.NoHandlers? {
        ok := storage.MarkFailed(k.id, "no handlers registered");
      } else if v.HandlersOk? {
        ok := storage.MarkPublished(k.id, now);
      } else {
        var nextAttempts := k.attempts + 1;
        if nextAttempts >= k.maxAttempts {
          ok := storage.MarkFailed(k.id, err);
        } else {
          ok := storage.MarkPendingRetry(k.id, err, now + backoff);
        }
      }
    }

    /** Row n of the batch: handlers, then the mark unless the context is done. */
    method ProcessClaimed(env: Env, k: Ticket, n: nat) returns (ok: bool)
      modifies storage
      ensures n < env.alive ==>
        && (ok <==> Legal(Marked(old(storage.table), k.id, MarkOf(env, k, n))))
        && storage.table == Commit(old(storage.table), Marked(old(storage.table), k.id, MarkOf(env, k, n)))
      ensures env.alive <= n ==> !ok && storage.table == old(storage.table)
      ensures storage.table - {k.id} == old(storage.table) - {k.id}
      ensures !ok ==> storage.table == old(storage.table)
      ensures k.id in storage.table <==> k.id in old(storage.table)
      ensures ok && k.id in old(storage.table) ==>
        DeliveryOutcome(env.handlersOf(k.event.eventType), k, old(storage.table)[k.id], storage.table[k.id],
                        env.now(n), env.backoff(k.attempts))
      ensures n < env.alive && Legal(old(storage.table)) ==>
        (ok <==> (k.id in old(storage.table) ==>
           || (env.handlersOf(k.event.eventType) != [] && !Breaks(env.handlersOf(k.event.eventType), k.event))
           || (old(storage.table)[k.id].attempts < old(storage.table)[k.id].maxAttempts
               && !old(storage.table)[k.id].status.Published?)))
    {
      ProcessedRow(storage.table, env, k, n);
      var handlers := env.handlersOf(k.event.eventType);
      var v, err := RunHandlers(handlers, k.event, if n < env.alive then |handlers| else 0);
      if env.alive <= n {
        return false;
      }
      ok := MarkRow(k, v, err, env.now(n), env.backoff(k.attempts));
    }

    /**
     A run on an undisturbed table: the batch is what the claim query says, the
     rows reached before the deadline carry the mark of their own delivery, the
     others stay locked for the reaper, and no other row is touched.
     */
    method Run(env: Env, claimNow: Time) returns (errors: nat, ghost order: seq<EventId>)
      requires TableInv(storage.table)
      modifies storage
      ensures TableInv(storage.table)
      ensures IsBatch(old(storage.table), old(storage.table), claimNow, batchSize, {}, order)
      ensures storage.table.Keys == old(storage.table).Keys && forall id | id in order :: id in old(storage.table)
      ensures storage.table == AfterRun(env, old(storage.table), order, claimNow, instanceId)
      ensures forall n | 0 <= n < |order| ::
        var before := old(storage.table)[order[n]];
        RowSettled(env, order[n], before, storage.table[order[n]], n,
                   before.(status := Processing, lockedAt := Some(claimNow), lockedBy := Some(instanceId)))
      ensures forall id | id in old(storage.table) && id !in order :: storage.table[id] == old(storage.table)[id]
      ensures errors == if |order| <= env.alive then 0 else |order| - env.alive
    {
      ghost var t0 := storage.table;
      var rows;
      rows, order := storage.ClaimBatch(instanceId, batchSize, claimNow, storage.table, {});
      FreshClaimIsNeverDeferred(t0, claimNow, IdSet(order), instanceId);
      BatchIsDistinct(t0, t0, claimNow, batchSize, {}, order);
      LockingKeepsTableInv(t0, order, claimNow, instanceId);
      ghost var locked := storage.table;
      errors := SettleRows(env, rows, order);
      RunSettles(env, t0, order, claimNow, instanceId);
    }

    method SettleRow(env: Env, k: Ticket, n: nat) returns (ok: bool)
      requires TableInv(storage.table) && k.id in storage.table && storage.table[k.id].status.Processing?
      requires k == TicketFor(storage.table, k.id)
      modifies storage
      ensures TableInv(storage.table) && (ok <==> n < env.alive)
      ensures storage.table == old(storage.table)[k.id := Settled(env, old(storage.table)[k.id], k.id, n)]
    {
      MarkKeepsTableInv(storage.table, k.id, MarkOf(env, k, n));
      ok := ProcessClaimed(env, k, n);
    }

    /** One step of the loop: row n of the batch goes from locked to settled. */
    method SettleNext(env: Env, k: Ticket, n: nat, ghost t0: Table, ghost rows: seq<Ticket>, ghost order: seq<EventId>)
      returns (ok: bool)
      requires TableInv(t0) && ClaimedBatch(t0, rows, order) && n < |order| && k == rows[n]
      requires storage.table == Replaced(t0, order, SettledRows(env, t0, order), n)
      modifies storage
      ensures ok <==> n < env.alive
      ensures storage.table == Replaced(t0, order, SettledRows(env, t0, order), n + 1)
    {
      NotYetReplaced(t0, order, SettledRows(env, t0, order), n, n);
      SettledKeepsInv(env, t0, rows, order, n);
      SettledRowAt(env, t0, order, n);
      ok := SettleRow(env, k, n);
    }

    method SettleLoop(env: Env, rows: seq<Ticket>, ghost order: seq<EventId>, ghost settled: seq<Row>)
      returns (errors: nat)
      requires TableInv(storage.table) && ClaimedBatch(storage.table, rows, order)
      requires settled == SettledRows(env, storage.table, order)
      modifies storage
      ensures storage.table == Replaced(old(storage.table), order, settled, |order|)
      ensures errors == if |order| <= env.alive then 0 else |order| - env.alive
    {
      errors := 0;
      ghost var t0 := storage.table;
      var i := 0;
      while i < |rows|
        invariant i <= |rows| && storage.table == Replaced(t0, order, settled, i)
        invariant errors == if i <= env.alive then 0 else i - env.alive
      {
        var ok := SettleNext(env, rows[i], i, t0, rows, order);
        if !ok {
          errors := errors + 1;
        }
        i := i + 1;
      }
    }

    method SettleRows(env: Env, rows: seq<Ticket>, ghost order: seq<EventId>) returns (errors: nat)
      requires TableInv(storage.table) && ClaimedBatch(storage.table, rows, order)
      modifies storage
      ensures TableInv(storage.table)
      ensures storage.table == Replaced(old(storage.table), order, SettledRows(env, old(storage.table), order), |order|)
      ensures BatchOutcome(env, old(storage.table), storage.table, order)
      ensures errors == if |order| <= env.alive then 0 else |order| - env.alive
    {
      ghost var t0 := storage.table;
      errors := SettleLoop(env, rows, order, SettledRows(env, t0, order));
      SettledKeepsInv(env, t0, rows, order, |order|);
      BatchSettled(env, t0, order);
    }
  }

  lemma ProcessedRow(t: Table, env: Env, k: Ticket, n: nat)
    ensures var handlers, after := env.handlersOf(k.event.eventType), Marked(t, k.id, MarkOf(env, k, n));
      && after - {k.id} == t - {k.id}
      && (k.id in t <==> k.id in after)
      && (k.id in t ==>
            DeliveryOutcome(handlers, k, t[k.id], after[k.id], env.now(n), env.backoff(k.attempts)))
      && (Legal(t) ==>
            (Legal(after) <==> (k.id in t ==>
               || (handlers != [] && !Breaks(handlers, k.event))
               || (t[k.id].attempts < t[k.id].maxAttempts && !t[k.id].status.Published?))))
  {
    if k.id in t {
      MarkOfMeans(env, k, t[k.id], n);
    }
    if Legal(t) {
      MarkAcceptedIff(t, k.id, MarkOf(env, k, n));
    }
  }

  /** Row n of a batch after the run: its delivery's outcome if it was reached in time, else as it was locked. */
  ghost predicate RowSettled(env: Env, id: EventId, before: Row, after: Row, n: nat, locked: Row) {
    if n < env.alive then
      DeliveryOutcome(env.handlersOf(before.event.eventType),
                      Ticket(id, before.event, before.attempts, before.maxAttempts),
                      before, after, env.now(n), env.backoff(before.attempts))
    else after == locked
  }

  /** Every row of the batch is settled and no other row is touched. */
  ghost predicate BatchOutcome(env: Env, t: Table, after: Table, order: seq<EventId>) {
    && after.Keys == t.Keys && (forall id | id in t && id !in order :: after[id] == t[id])
    && forall n | 0 <= n < |order| ::
         order[n] in t && RowSettled(env, order[n], t[order[n]], after[order[n]], n, t[order[n]])
  }

  lemma BatchSettled(env: Env, t: Table, order: seq<EventId>)
    requires Distinct(order) && forall m | 0 <= m < |order| :: order[m] in t
    ensures BatchOutcome(env, t, Replaced(t, order, SettledRows(env, t, order), |order|), order)
  {
    ReplacedAt(t, order, SettledRows(env, t, order), |order|);
    forall n | 0 <= n < |order|
      ensures RowSettled(env, order[n], t[order[n]], SettledRows(env, t, order)[n], n, t[order[n]])
    {
      var row := t[order[n]];
      SettledRowAt(env, t, order, n);
      MarkOfMeans(env, Ticket(order[n], row.event, row.attempts, row.maxAttempts), row, n);
    }
  }

  lemma RunSettles(env: Env, t: Table, order: seq<EventId>, now: Time, owner: string)
    requires Distinct(order) && forall m | 0 <= m < |order| :: order[m] in t
    ensures var after := AfterRun(env, t, order, now, owner);
      && after.Keys == t.Keys && (forall id | id in t && id !in order :: after[id] == t[id])
      && forall n | 0 <= n < |order| ::
           RowSettled(env, order[n], t[order[n]], after[order[n]], n,
                      t[order[n]].(status := Processing, lockedAt := Some(now), lockedBy := Some(owner)))
  {
    var locked := Locked(t, IdSet(order), now, owner);
    BatchSettled(env, locked, order);
    forall n | 0 <= n < |order|
      ensures locked[order[n]] ==
        t[order[n]].(status := Processing, lockedAt := Some(now), lockedBy := Some(owner))
    {
      assert order[n] in order;
    }
  }

  ghost predicate ClaimedBatch(t: Table, rows: seq<Ticket>, order: seq<EventId>) {
    && |rows| == |order| && Distinct(order)
    && forall n | 0 <= n < |order| ::
         order[n] in t && t[order[n]].status.Processing? && rows[n] == TicketFor(t, order[n])
  }

  /** What every row of a batch becomes. */
  ghost function SettledRows(env: Env, t: Table, order: seq<EventId>): (rows: seq<Row>)
    requires forall n | 0 <= n < |order| :: order[n] in t
    ensures |rows| == |order|
  {
    if order == [] then []
    else
      var n := |order| - 1;
      SettledRows(env, t, order[..n]) + [Settled(env, t[order[n]], order[n], n)]
  }

  lemma {:induction false} SettledRowAt(env: Env, t: Table, order: seq<EventId>, n: nat)
    requires n < |order| && forall m | 0 <= m < |order| :: order[m] in t
    ensures SettledRows(env, t, order)[n] == Settled(env, t[order[n]], order[n], n)
  {
    if n < |order| - 1 {
      SettledRowAt(env, t, order[..|order| - 1], n);
    }
  }

  /** The table after the first n rows of a batch were rewritten. */
  ghost function Replaced(t: Table, order: seq<EventId>, rows: seq<Row>, n: nat): Table
    requires n <= |order| == |rows|
  {
    if n == 0 then t else Replaced(t, order, rows, n - 1)[order[n - 1] := rows[n - 1]]
  }

  /** The table a run leaves that claimed this batch and settled it. */
  ghost function AfterRun(env: Env, t: Table, order: seq<EventId>, now: Time, owner: string): Table
    requires forall n | 0 <= n < |order| :: order[n] in t
  {
    var locked := Locked(t, IdSet(order), now, owner);
    Replaced(locked, order, SettledRows(env, locked, order), |order|)
  }

  lemma {:induction false} NotYetReplaced(t: Table, order: seq<EventId>, rows: seq<Row>, n: nat, m: nat)
    requires n <= m < |order| == |rows| && Distinct(order) && order[m] in t
    ensures order[m] in Replaced(t, order, rows, n) && Replaced(t, order, rows, n)[order[m]] == t[order[m]]
  {
    if n > 0 {
      NotYetReplaced(t, order, rows, n - 1, m);
    }
  }

  lemma SettledKeepsInv(env: Env, t: Table, rows: seq<Ticket>, order: seq<EventId>, n: nat)
    requires TableInv(t) && ClaimedBatch(t, rows, order) && n <= |order|
    ensures TableInv(Replaced(t, order, SettledRows(env, t, order), n))
  {
    var settled := SettledRows(env, t, order);
    var r := Replaced(t, order, settled, n);
    ReplacedAt(t, order, settled, n);
    forall id | id in t
      ensures NoNewLock(t[id], r[id])
    {
      if id in order {
        var m :| 0 <= m < |order| && order[m] == id;
        if m < n {
          SettledRowKeepsInv(env, t, rows, order, m);
        } else {
          NotYetReplaced(t, order, settled, n, m);
        }
      }
    }
    FewerLocksKeepInv(t, r);
  }

  /** The row stays lawful and of its user, and is not Processing unless it was. */
  ghost predicate NoNewLock(before: Row, after: Row) {
    RowInv(before) ==>
      RowInv(after) && after.event == before.event && (after.status.Processing? ==> before.status.Processing?)
  }

  lemma FewerLocksKeepInv(t: Table, r: Table)
    requires TableInv(t) && r.Keys == t.Keys && forall id | id in t :: NoNewLock(t[id], r[id])
    ensures TableInv(r)
  {
    forall id | id in r
      ensures RowInv(r[id])
    {
      assert NoNewLock(t[id], r[id]) && RowInv(t[id]);
    }
    forall a, b | a in r && b in r && a != b && r[a].status.Processing? && r[b].status.Processing?
      ensures !SameUser(r[a], r[b])
    {
      assert NoNewLock(t[a], r[a]) && NoNewLock(t[b], r[b]) && RowInv(t[a]) && RowInv(t[b]);
    }
  }

  lemma SettledRowKeepsInv(env: Env, t: Table, rows: seq<Ticket>, order: seq<EventId>, m: nat)
    requires ClaimedBatch(t, rows, order) && m < |order|
    ensures NoNewLock(t[order[m]], SettledRows(env, t, order)[m])
  {
    assert rows[m] == TicketFor(t, order[m]) && t[order[m]].status.Processing?;
    SettledRowAt(env, t, order, m);
  }

  lemma {:induction false} ReplacedAt(t: Table, order: seq<EventId>, rows: seq<Row>, n: nat)
    requires n <= |order| == |rows| && Distinct(order) && forall m | 0 <= m < |order| :: order[m] in t
    ensures var r := Replaced(t, order, rows, n);
      && r.Keys == t.Keys
      && (forall m | 0 <= m < n :: r[order[m]] == rows[m])
      && (forall id | id in t && id !in order :: r[id] == t[id])
  {
    if n > 0 {
      ReplacedAt(t, order, rows, n - 1);
    }
  }

  function LockedRow(r: Row, now: Time, owner: string): Row {
    r.(status := Processing, lockedAt := Some(now), lockedBy := Some(owner))
  }

  /** What row n of a batch looks like when the run is over. */
  function Settled(env: Env, locked: Row, id: EventId, n: nat): Row {
    var k := Ticket(id, locked.event, locked.attempts, locked.maxAttempts);
    if n < env.alive then MarkedRow(locked, MarkOf(env, k, n)) else locked
  }

  lemma LockingKeepsTableInv(t: Table, order: seq<EventId>, now: Time, owner: string)
    requires TableInv(t) && Legal(Locked(t, IdSet(order), now, owner))
    requires forall id | id in order :: id in t && Due(t, id, now)
    ensures var after := Locked(t, IdSet(order), now, owner);
      && TableInv(after) && after.Keys == t.Keys
      && (forall n | 0 <= n < |order| :: order[n] in order && after[order[n]] == LockedRow(t[order[n]], now, owner))
      && (forall id | id in t && id !in order :: after[id] == t[id])
  {
    var after := Locked(t, IdSet(order), now, owner);
    forall id | id in after
      ensures RowInv(after[id])
    {
      assert RowInv(t[id]);
    }
  }
}
