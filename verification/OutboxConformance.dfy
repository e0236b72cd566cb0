/**
 The dispatcher object and the protocol agree: what one run of the object does
 to an undisturbed table is what a run of the protocol does to it.
 */
module OutboxConformance {
  import opened Wrappers
  import opened OutboxTable
  import opened OutboxHistory
  import opened OutboxProtocol
  import opened OutboxSafety
  import opened OutboxProgress
  import opened OutboxDispatcher

  /** The rows settled before the deadline are settled in the order of the clock, and within the job timeout. */
  ghost predicate InTime(env: Env, start: Time) {
    && (forall n | 0 <= n < env.alive :: start <= env.now(n) <= start + JOB_TIMEOUT)
    && (forall m, n | 0 <= m <= n < env.alive :: env.now(m) <= env.now(n))
  }

  /** A batch, and the log as it was when its run began. */
  datatype Batch = Batch(env: Env, run: RunId, owner: string, start: Time, locked: Table,
                         tickets: seq<Ticket>, order: seq<EventId>, others: map<RunId, Run>, log: Log)

  /** A batch as its run claimed it. */
  ghost predicate Claimed(b: Batch) {
    ClaimedBatch(b.locked, b.tickets, b.order) && TableInv(b.locked) && b.run !in b.others && InTime(b.env, b.start)
  }

  /** What a run adds to the log for one row. */
  function RowLog(env: Env, k: Ticket, n: nat): Log {
    if n < env.alive then
      [Quiet, Delivery(k.id, VerdictOf(env.handlersOf(k.event.eventType), k.event)), Marking(k.id, MarkOf(env, k, n))]
    else [Quiet]
  }

  /** What a run adds to the log until it has settled the first n rows of its batch. */
  ghost function RunLog(env: Env, ks: seq<Ticket>, ids: set<EventId>, n: nat): Log
    requires n <= |ks|
  {
    if n == 0 then [Quiet, Quiet, Claim(ids)] else RunLog(env, ks, ids, n - 1) + RowLog(env, ks[n - 1], n - 1)
  }

  /** A run of the protocol has settled the first n rows of its batch. */
  ghost predicate SettledTo(s: State, b: Batch, n: nat)
    requires Claimed(b)
  {
    && n <= |b.order|
    && s.table == Replaced(b.locked, b.order, SettledRows(b.env, b.locked, b.order), n)
    && s.runs == b.others[b.run := Working(b.owner, b.start, b.start, b.tickets[n..], None)]
    && b.start <= s.clock && (n < b.env.alive ==> s.clock <= b.env.now(n))
    && s.log == b.log + RunLog(b.env, b.tickets, IdSet(b.order), n)
  }

  ghost predicate Settling(c: Config, acts: seq<Action>, b: Batch, n: nat)
    requires Claimed(b)
  {
    Valid(c, acts) && SettledTo(Exec(c, acts), b, n)
  }

  /** The clock moves on to the time row n is settled at. */
  lemma Wait(c: Config, acts: seq<Action>, now: Time) returns (waited: seq<Action>)
    requires Valid(c, acts) && Exec(c, acts).clock <= now
    ensures Valid(c, waited) && acts <= waited
    ensures Exec(c, waited) == Log1(Exec(c, acts), Quiet).(clock := now)
  {
    Extend(c, acts, Tick(now - Exec(c, acts).clock));
    waited := acts + [Tick(now - Exec(c, acts).clock)];
  }

  lemma RowLogged(log: Log, env: Env, k: Ticket, n: nat)
    requires n < env.alive
    ensures log + [Quiet] +
      [Delivery(k.id, VerdictOf(env.handlersOf(k.event.eventType), k.event)), Marking(k.id, MarkOf(env, k, n))]
      == log + RowLog(env, k, n)
  {
  }

  lemma SettleInTime(c: Config, acts: seq<Action>, b: Batch, n: nat) returns (acts': seq<Action>)
    requires Claimed(b) && Settling(c, acts, b, n) && n < |b.order| && n < b.env.alive
    ensures Settling(c, acts', b, n + 1) && acts <= acts'
  {
    var s, k := Exec(c, acts), b.tickets[n];
    var handlers := b.env.handlersOf(k.event.eventType);
    ReadyToSettle(s, b, n);
    var waited := Wait(c, acts, b.env.now(n));
    acts' := DeliverAndMark(c, waited, b.run, VerdictOf(handlers, k.event),
                            Joined(Errors(handlers, k.event)), b.env.backoff(k.attempts));
    RowLogged(s.log, b.env, k, n);
    SettledNext(s, b, n, Exec(c, acts'));
  }

  /** Once the clock has moved on, the run may deliver and mark its next row. */
  lemma ReadyToSettle(s: State, b: Batch, n: nat)
    requires Claimed(b) && SettledTo(s, b, n) && n < |b.order| && n < b.env.alive
    ensures s.clock <= b.env.now(n)
    ensures var s1 := Log1(s, Quiet).(clock := b.env.now(n));
      && HasTodo(s1, b.run) && Live(s1, s1.runs[b.run]) && s1.runs[b.run].verdict.None?
      && s1.runs[b.run].todo[0] == b.tickets[n]
      && Legal(Marked(s1.table, b.tickets[n].id, MarkOf(b.env, b.tickets[n], n)))
  {
    NextRuns(b, n);
    NotYetReplaced(b.locked, b.order, SettledRows(b.env, b.locked, b.order), n, n);
    SettledKeepsInv(b.env, b.locked, b.tickets, b.order, n);
    MarkKeepsTableInv(s.table, b.tickets[n].id, MarkOf(b.env, b.tickets[n], n));
  }

  lemma SettledNext(s: State, b: Batch, n: nat, s': State)
    requires Claimed(b) && SettledTo(s, b, n) && n < |b.order| && n < b.env.alive
    requires s'.clock == b.env.now(n) && s'.table == Marked(s.table, b.tickets[n].id, MarkOf(b.env, b.tickets[n], n))
    requires b.tickets[n..] != [] && s'.runs == Advance(s, b.run)
    requires s'.log == s.log + RowLog(b.env, b.tickets[n], n)
    ensures SettledTo(s', b, n + 1)
  {
    NotYetReplaced(b.locked, b.order, SettledRows(b.env, b.locked, b.order), n, n);
    SettledRow(b, n);
    NextRuns(b, n);
  }

  lemma NextRuns(b: Batch, n: nat)
    requires n < |b.tickets|
    ensures b.tickets[n..] != [] && b.tickets[n..][0] == b.tickets[n]
    ensures var w := Working(b.owner, b.start, b.start, b.tickets[n..], None);
      b.others[b.run := w][b.run := w.(todo := w.todo[1..], verdict := None)]
      == b.others[b.run := Working(b.owner, b.start, b.start, b.tickets[n + 1..], None)]
  {
    assert b.tickets[n..][1..] == b.tickets[n + 1..];
  }

  lemma SettledRow(b: Batch, n: nat)
    requires ClaimedBatch(b.locked, b.tickets, b.order) && n < |b.order|
    ensures SettledRows(b.env, b.locked, b.order)[n] ==
      if n < b.env.alive then MarkedRow(b.locked[b.order[n]], MarkOf(b.env, b.tickets[n], n)) else b.locked[b.order[n]]
  {
    assert b.tickets[n] == TicketFor(b.locked, b.order[n]);
    SettledRowAt(b.env, b.locked, b.order, n);
  }

  lemma SkipLate(c: Config, acts: seq<Action>, b: Batch, n: nat) returns (acts': seq<Action>)
    requires Claimed(b) && Settling(c, acts, b, n) && n < |b.order| && b.env.alive <= n
    ensures Settling(c, acts', b, n + 1) && acts <= acts'
  {
    NotYetReplaced(b.locked, b.order, SettledRows(b.env, b.locked, b.order), n, n);
    SettledRow(b, n);
    NextRuns(b, n);
    Extend(c, acts, SkipHead(b.run));
    acts' := acts + [SkipHead(b.run)];
    assert RowLog(b.env, b.tickets[n], n) == [Quiet];
  }

  lemma SettleOne(c: Config, acts: seq<Action>, b: Batch, n: nat) returns (acts': seq<Action>)
    requires Claimed(b) && Settling(c, acts, b, n) && n < |b.order|
    ensures Settling(c, acts', b, n + 1) && acts <= acts'
  {
    if n < b.env.alive {
      acts' := SettleInTime(c, acts, b, n);
    } else {
      acts' := SkipLate(c, acts, b, n);
    }
  }

  lemma {:induction false} SettleAll(c: Config, acts: seq<Action>, b: Batch, n: nat) returns (acts': seq<Action>)
    requires Claimed(b) && Settling(c, acts, b, 0) && n <= |b.order|
    ensures Settling(c, acts', b, n) && acts <= acts'
  {
    if n == 0 {
      acts' := acts;
    } else {
      var acts1 := SettleAll(c, acts, b, n - 1);
      acts' := SettleOne(c, acts1, b, n - 1);
      Longer(acts, acts1, acts');
    }
  }

  lemma Longer(a: seq<Action>, b: seq<Action>, c: seq<Action>)
    requires a <= b <= c
    ensures a <= c
  {
  }

  /** Starting, reading the snapshot and committing the batch. */
  lemma ClaimBatchAlone(c: Config, acts: seq<Action>, run: RunId, owner: string, order: seq<EventId>)
    returns (acts': seq<Action>)
    requires Valid(c, acts) && run !in Exec(c, acts).runs && Legal(Exec(c, acts).table)
    requires var s := Exec(c, acts); IsBatch(s.table, s.table, s.clock, c.batchSize, {}, order)
    ensures Valid(c, acts') && acts <= acts' && forall id | id in order :: id in Exec(c, acts).table
    ensures var s := Exec(c, acts);
      && Exec(c, acts').clock == s.clock && Exec(c, acts').table == Locked(s.table, IdSet(order), s.clock, owner)
      && Exec(c, acts').runs == s.runs[run := Working(owner, s.clock, s.clock, Tickets(s.table, order), None)]
      && Exec(c, acts').log == s.log + [Quiet, Quiet, Claim(IdSet(order))]
  {
    var s := Exec(c, acts);
    SnapshotAlone(c, acts, run, owner);
    var acts2 := acts + [StartRun(run, owner), BeginClaim(run)];
    FreshClaimIsNeverDeferred(s.table, s.clock, IdSet(order), owner);
    BatchIsDistinct(s.table, s.table, s.clock, c.batchSize, {}, order);
    Extend(c, acts2, CommitClaim(run, order));
    acts' := acts2 + [CommitClaim(run, order)];
    Overwritten(s.runs, run, Selecting(owner, s.clock, s.clock, s.table),
                Working(owner, s.clock, s.clock, Tickets(s.table, order), None));
  }

  lemma StartSettling(c: Config, acts: seq<Action>, b: Batch) returns (acts': seq<Action>)
    requires Valid(c, acts) && b.run !in Exec(c, acts).runs && TableInv(Exec(c, acts).table)
    requires var s := Exec(c, acts);
      && IsBatch(s.table, s.table, s.clock, c.batchSize, {}, b.order) && InTime(b.env, s.clock)
      && b.start == s.clock && b.others == s.runs && b.log == s.log
      && b.locked == Locked(s.table, IdSet(b.order), s.clock, b.owner)
      && (forall id | id in b.order :: id in s.table) && b.tickets == Tickets(s.table, b.order)
    ensures Claimed(b) && Settling(c, acts', b, 0) && acts <= acts'
  {
    var s := Exec(c, acts);
    OneInFlightPerUser(c, acts);
    acts' := ClaimBatchAlone(c, acts, b.run, b.owner, b.order);
    FreshClaimIsNeverDeferred(s.table, s.clock, IdSet(b.order), b.owner);
    LockingKeepsTableInv(s.table, b.order, s.clock, b.owner);
    BatchIsDistinct(s.table, s.table, s.clock, c.batchSize, {}, b.order);
    assert b.tickets[0..] == b.tickets;
  }

  /**
   For every batch the claim query may select and every outcome of the
   handlers, the protocol has a run, among any others in flight, that leaves
   exactly the table the dispatcher object leaves.  DeliveriesTellTheHandlers
   and EveryRowIsDelivered say what the log it adds means.
   */
  lemma RunIsProtocolRun(c: Config, acts: seq<Action>, run: RunId, owner: string, env: Env, order: seq<EventId>)
    returns (acts': seq<Action>)
    requires Valid(c, acts) && run !in Exec(c, acts).runs && TableInv(Exec(c, acts).table)
    requires var s := Exec(c, acts); IsBatch(s.table, s.table, s.clock, c.batchSize, {}, order) && InTime(env, s.clock)
    ensures Valid(c, acts') && acts <= acts' && Exec(c, acts').runs == Exec(c, acts).runs
    ensures var s := Exec(c, acts);
      && (forall id | id in order :: id in s.table)
      && Exec(c, acts').table == AfterRun(env, s.table, order, s.clock, owner)
      && Exec(c, acts').log == s.log + RunLog(env, Tickets(s.table, order), IdSet(order), |order|) + [Quiet]
  {
    var s := Exec(c, acts);
    var b := Batch(env, run, owner, s.clock, Locked(s.table, IdSet(order), s.clock, owner),
                   Tickets(s.table, order), order, s.runs, s.log);
    var started := StartSettling(c, acts, b);
    var settled := SettleAll(c, started, b, |order|);
    Extend(c, settled, EndRun(run));
    acts' := settled + [EndRun(run)];
    Removed(s.runs, run, Working(owner, s.clock, s.clock, b.tickets[|order|..], None));
  }

  /** The verdict is the handlers' own: no handlers, all of them succeeded, or one failed. */
  ghost predicate Tells(handlers: seq<Handler>, e: Event, v: Verdict) {
    && (v == NoHandlers <==> handlers == [])
    && (v == HandlersOk <==> handlers != [] && !Breaks(handlers, e))
    && (v == HandlersFailed <==> Breaks(handlers, e))
  }

  /** Every entry about handlers is a row of the batch, with the verdict of the handlers of its event's type. */
  ghost predicate OnlyTrueDeliveries(env: Env, ks: seq<Ticket>, news: Log) {
    forall i | 0 <= i < |news| && news[i].Delivery? ::
      exists m ::
        && 0 <= m < |ks| && ks[m].id == news[i].id
        && Tells(env.handlersOf(ks[m].event.eventType), ks[m].event, news[i].verdict)
  }

  /** The deliveries a run logs are of its rows, and say success exactly when all handlers succeeded. */
  lemma {:induction false} DeliveriesTellTheHandlers(env: Env, ks: seq<Ticket>, ids: set<EventId>, n: nat)
    requires n <= |ks|
    ensures OnlyTrueDeliveries(env, ks, RunLog(env, ks, ids, n))
  {
    if n == 0 {
      var start: Log := [Quiet, Quiet, Claim(ids)];
      assert forall i | 0 <= i < |start| :: !start[i].Delivery?;
    } else {
      DeliveriesTellTheHandlers(env, ks, ids, n - 1);
      RowTellsTheHandlers(env, ks, n - 1, RunLog(env, ks, ids, n - 1));
    }
  }

  lemma RowTellsTheHandlers(env: Env, ks: seq<Ticket>, n: nat, news: Log)
    requires n < |ks| && OnlyTrueDeliveries(env, ks, news)
    ensures OnlyTrueDeliveries(env, ks, news + RowLog(env, ks[n], n))
  {
    var row, k := RowLog(env, ks[n], n), ks[n];
    var after := news + row;
    VerdictTells(env.handlersOf(k.event.eventType), k.event);
    forall i | 0 <= i < |after| && after[i].Delivery?
      ensures exists m ::
        && 0 <= m < |ks| && ks[m].id == after[i].id
        && Tells(env.handlersOf(ks[m].event.eventType), ks[m].event, after[i].verdict)
    {
      if i < |news| {
        assert news[i].Delivery?;
      } else {
        assert after[i] == row[i - |news|] && ks[n].id == after[i].id;
      }
    }
  }

  /** Every row reached before the deadline was delivered. */
  lemma {:induction false} EveryRowIsDelivered(env: Env, ks: seq<Ticket>, ids: set<EventId>, n: nat, m: nat)
    returns (i: nat)
    requires m < n <= |ks| && m < env.alive
    ensures var news := RunLog(env, ks, ids, n);
      i < |news| && news[i].Delivery? && news[i].id == ks[m].id
  {
    if m == n - 1 {
      i := |RunLog(env, ks, ids, n - 1)| + 1;
    } else {
      i := EveryRowIsDelivered(env, ks, ids, n - 1, m);
    }
  }

  lemma VerdictTells(handlers: seq<Handler>, e: Event)
    ensures Tells(handlers, e, VerdictOf(handlers, e))
  {
    NoErrorsMeansAllSucceed(handlers, e);
    assert forall i | 0 <= i < |handlers| :: handlers[i] in handlers;
  }
}
