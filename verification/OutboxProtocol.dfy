/**
 The outbox protocol: any number of dispatcher runs, the reaper, housekeeping
 and publishers interleave on one table and one clock.  A claim is split into
 reading a snapshot and committing, so a claim may act on stale data.
 */
module OutboxProtocol {
  import opened Wrappers
  import opened OutboxTable
  import opened OutboxHistory

  /** DispatcherJob.Timeout: five minutes in microseconds. */
  const JOB_TIMEOUT := 300_000_000

  type RunId = nat

  datatype Config = Config(batchSize: nat, stuckAfter: int, retention: int)

  /** The columns the claim returns to the dispatcher. */
  datatype Ticket = Ticket(id: EventId, event: Event, attempts: int, maxAttempts: int)

  datatype Run =
    | Starting(owner: string, start: Time)
    | Selecting(owner: string, start: Time, claimNow: Time, snap: Table)
    | Working(owner: string, start: Time, claimNow: Time, todo: seq<Ticket>, verdict: Option<Verdict>)

  datatype State = State(clock: Time, table: Table, runs: map<RunId, Run>, log: Log)

  datatype Action =
    | Tick(d: nat)
    | Insert(id: EventId, event: Event, maxAttempts: int, at: Time)
    | StartRun(run: RunId, owner: string)
    | BeginClaim(run: RunId)
    | CommitClaim(run: RunId, order: seq<EventId>)
    | Deliver(run: RunId, verdict: Verdict)
    | MarkHead(run: RunId, err: string, backoff: int)
    | SkipHead(run: RunId)
    | EndRun(run: RunId)
    | ResetStuck
    | DeleteBatch(ids: set<EventId>)

  const Init := State(0, map[], map[], [])

  predicate Live(s: State, r: Run) {
    s.clock <= r.start + JOB_TIMEOUT
  }

  function IdSet(order: seq<EventId>): set<EventId> {
    set id | id in order
  }

  predicate Distinct(order: seq<EventId>) {
    forall m, n | 0 <= m < n < |order| :: order[m] != order[n]
  }

  lemma BatchIsDistinct(snap: Table, cur: Table, now: Time, limit: nat, skip: set<EventId>, batch: seq<EventId>)
    requires IsBatch(snap, cur, now, limit, skip, batch)
    ensures Distinct(batch)
  {
    forall m, n | 0 <= m < n < |batch|
      ensures batch[m] != batch[n]
    {
      assert batch[m] in batch && batch[n] in batch;
      PrecedesTotal(snap, batch[m], batch[n]);
    }
  }

  function TicketFor(t: Table, id: EventId): Ticket
    requires id in t
  {
    Ticket(id, t[id].event, t[id].attempts, t[id].maxAttempts)
  }

  function Tickets(t: Table, order: seq<EventId>): (ts: seq<Ticket>)
    requires forall id | id in order :: id in t
    ensures |ts| == |order| && forall n | 0 <= n < |ts| :: ts[n] == TicketFor(t, order[n])
  {
    seq(|order|, n requires 0 <= n < |order| => TicketFor(t, order[n]))
  }

  /** The mark a finished delivery asks for. */
  function MarkFor(c: Ticket, v: Verdict, now: Time, err: string, backoff: int): Mark {
    match v
    case NoHandlers => Fail("no handlers registered")
    case HandlersOk => Publish(now)
    case HandlersFailed =>
      if c.attempts + 1 >= c.maxAttempts then Fail(err) else Retry(err, now + backoff)
  }

  predicate HasTodo(s: State, run: RunId) {
    run in s.runs && s.runs[run].Working? && s.runs[run].todo != []
  }

  ghost predicate Enabled(c: Config, s: State, a: Action) {
    match a
    case Tick(_) => true
    case Insert(_, _, _, at) => at <= s.clock
    case StartRun(run, _) => run !in s.runs
    case BeginClaim(run) => run in s.runs && s.runs[run].Starting?
    case CommitClaim(run, order) =>
      && run in s.runs && s.runs[run].Selecting?
      && |order| <= c.batchSize && Distinct(order)
      && forall id | id in order :: Claimable(s.runs[run].snap, s.table, s.runs[run].claimNow, id)
    case Deliver(run, _) => HasTodo(s, run) && Live(s, s.runs[run]) && s.runs[run].verdict.None?
    case MarkHead(run, _, _) => HasTodo(s, run) && Live(s, s.runs[run]) && s.runs[run].verdict.Some?
    case SkipHead(run) => HasTodo(s, run)
    case EndRun(run) => run in s.runs
    case ResetStuck => true
    case DeleteBatch(ids) => ids <= ExpiredIds(s.table, s.clock, c.retention)
  }

  function Log1(s: State, e: Entry): State {
    s.(log := s.log + [e])
  }

  function ApplyInsert(s: State, id: EventId, e: Event, maxAttempts: int, at: Time): State {
    var after := Commit(s.table, Inserted(s.table, id, e, maxAttempts, at));
    Log1(s, if after == s.table then Quiet else Insertion(id)).(table := after)
  }

  /** A unique violation defers the whole batch: the run gets no rows and the table is unchanged. */
  ghost function ApplyCommit(s: State, run: RunId, order: seq<EventId>): State
    requires run in s.runs && s.runs[run].Selecting?
    requires forall id | id in order :: id in s.table
  {
    var r := s.runs[run];
    var after := Locked(s.table, IdSet(order), r.claimNow, r.owner);
    if Legal(after) then
      Log1(s, Claim(IdSet(order))).(
        table := after,
        runs := s.runs[run := Working(r.owner, r.start, r.claimNow, Tickets(s.table, order), None)])
    else
      Log1(s, Quiet).(runs := s.runs[run := Working(r.owner, r.start, r.claimNow, [], None)])
  }

  function Advance(s: State, run: RunId): map<RunId, Run>
    requires HasTodo(s, run)
  {
    var r := s.runs[run];
    s.runs[run := r.(todo := r.todo[1..], verdict := None)]
  }

  function ApplyMark(s: State, run: RunId, err: string, backoff: int): State
    requires HasTodo(s, run) && s.runs[run].verdict.Some?
  {
    var r := s.runs[run];
    var m := MarkFor(r.todo[0], r.verdict.value, s.clock, err, backoff);
    var after := Marked(s.table, r.todo[0].id, m);
    if Legal(after) then
      Log1(s, Marking(r.todo[0].id, m)).(table := after, runs := Advance(s, run))
    else
      Log1(s, Quiet).(runs := Advance(s, run))
  }

  ghost function Apply(c: Config, s: State, a: Action): State
    requires Enabled(c, s, a)
  {
    match a
    case Tick(d) => Log1(s, Quiet).(clock := s.clock + d)
    case Insert(id, e, maxAttempts, at) => ApplyInsert(s, id, e, maxAttempts, at)
    case StartRun(run, owner) => Log1(s, Quiet).(runs := s.runs[run := Starting(owner, s.clock)])
    case BeginClaim(run) =>
      Log1(s, Quiet).(runs := s.runs[run := Selecting(s.runs[run].owner, s.runs[run].start, s.clock, s.table)])
    case CommitClaim(run, order) => ApplyCommit(s, run, order)
    case Deliver(run, v) =>
      Log1(s, Delivery(s.runs[run].todo[0].id, v)).(runs := s.runs[run := s.runs[run].(verdict := Some(v))])
    case MarkHead(run, err, backoff) => ApplyMark(s, run, err, backoff)
    case SkipHead(run) => Log1(s, Quiet).(runs := Advance(s, run))
    case EndRun(run) => Log1(s, Quiet).(runs := s.runs - {run})
    case ResetStuck =>
      Log1(s, Release(StuckIds(s.table, s.clock, c.stuckAfter))).(table := Reset(s.table, s.clock, c.stuckAfter))
    case DeleteBatch(ids) => Log1(s, Purge(ids)).(table := s.table - ids)
  }

  // ---------- runs ----------

  ghost predicate Valid(c: Config, acts: seq<Action>)
    decreases |acts|, 0
  {
    acts == [] ||
    (var n := |acts| - 1; Valid(c, acts[..n]) && Enabled(c, Exec(c, acts[..n]), acts[n]))
  }

  ghost function Exec(c: Config, acts: seq<Action>): State
    requires Valid(c, acts)
    decreases |acts|, 1
  {
    if acts == [] then Init
    else var n := |acts| - 1; Apply(c, Exec(c, acts[..n]), acts[n])
  }

  // ---------- the invariant ----------

  predicate RowInv(r: Row) {
    && RowLegal(r)
    && (r.status.Processing? ==> r.lockedAt.Some? && r.nextAttemptAt <= r.lockedAt.value)
    && (!r.status.Failed? ==> r.attempts < r.maxAttempts)
  }

  ghost predicate TableInv(t: Table) {
    (forall id | id in t :: RowInv(t[id])) && InflightUnique(t)
  }

  ghost predicate Matches(f: Fate, t: Table, id: EventId) {
    match f
    case Absent => id !in t
    case Waiting(n) => id in t && t[id].status.Pending? && t[id].attempts == n
    case Held(n, _) => id in t && t[id].status.Processing? && t[id].attempts == n
    case Done(n) => id in t && t[id].status.Published? && t[id].attempts == n
    case Dead(n) => id in t && t[id].status.Failed? && t[id].attempts == n
    case Broken => false
  }

  ghost predicate HistoryInv(s: State) {
    forall id :: Matches(FateOf(s.log, id), s.table, id)
  }

  /** The row is Processing under exactly this run's claim. */
  ghost predicate Holds(t: Table, r: Run, k: Ticket)
    requires r.Working?
  {
    && k.id in t && t[k.id].status.Processing?
    && t[k.id].lockedAt == Some(r.claimNow) && t[k.id].lockedBy == Some(r.owner)
    && TicketFor(t, k.id) == k
  }

  ghost predicate HoldsAll(s: State, r: Run)
    requires r.Working?
  {
    forall n | 0 <= n < |r.todo| ::
      && Holds(s.table, r, r.todo[n])
      && FateOf(s.log, r.todo[n].id) == Held(r.todo[n].attempts, if n == 0 then r.verdict else None)
  }

  ghost predicate TodoDistinct(r: Run)
    requires r.Working?
  {
    forall m, n | 0 <= m < n < |r.todo| :: r.todo[m].id != r.todo[n].id
  }

  ghost predicate RunInv(s: State, r: Run) {
    && r.start <= s.clock
    && (!r.Starting? ==> r.start <= r.claimNow <= s.clock)
    && (r.Working? ==> TodoDistinct(r) && (Live(s, r) ==> HoldsAll(s, r)))
  }

  ghost predicate Apart(p: Run, q: Run) {
    p.Working? && q.Working? ==>
      forall m, n | 0 <= m < |p.todo| && 0 <= n < |q.todo| :: p.todo[m].id != q.todo[n].id
  }

  ghost predicate RunsApart(s: State) {
    forall p, q | p in s.runs && q in s.runs && p != q && Live(s, s.runs[p]) && Live(s, s.runs[q]) ::
      Apart(s.runs[p], s.runs[q])
  }

  ghost predicate Inv(s: State) {
    && TableInv(s.table)
    && HistoryInv(s)
    && (forall p | p in s.runs :: RunInv(s, s.runs[p]))
    && RunsApart(s)
  }

  /** The reaper waits at least as long as a dispatcher run may live. */
  predicate SafeConfig(c: Config) {
    JOB_TIMEOUT <= c.stuckAfter
  }

  // ---------- preservation ----------

  lemma FatesAfter(log: Log, e: Entry)
    ensures forall id :: FateOf(log + [e], id) == if About(e, id) then Next(FateOf(log, id), e) else FateOf(log, id)
  {
    forall id {
      FateAfter(log, e, id);
    }
  }

  /** One entry more: the events it is about take their next fate, the rows of all others are as before. */
  lemma HistoryStep(s: State, s': State, e: Entry)
    requires HistoryInv(s) && s'.log == s.log + [e]
    requires forall x | About(e, x) :: Matches(Next(FateOf(s.log, x), e), s'.table, x)
    requires forall x | !About(e, x) ::
      (x in s.table <==> x in s'.table) && (x in s.table ==> s'.table[x] == s.table[x])
    ensures HistoryInv(s')
  {
    FatesAfter(s.log, e);
    forall x
      ensures Matches(FateOf(s'.log, x), s'.table, x)
    {
      assert Matches(FateOf(s.log, x), s.table, x);
    }
  }

  lemma QuietStep(s: State, s': State)
    requires Inv(s) && s'.log == s.log + [Quiet] && s'.table == s.table && s.clock <= s'.clock
    requires forall p | p in s'.runs :: p in s.runs && s'.runs[p] == s.runs[p]
    ensures Inv(s')
  {
    FatesAfter(s.log, Quiet);
    forall p | p in s'.runs
      ensures RunInv(s', s'.runs[p])
    {
      assert RunInv(s, s.runs[p]);
    }
  }

  lemma InsertStep(s: State, id: EventId, e: Event, maxAttempts: int, at: Time)
    requires Inv(s)
    ensures Inv(ApplyInsert(s, id, e, maxAttempts, at))
  {
    var s' := ApplyInsert(s, id, e, maxAttempts, at);
    if s'.table == s.table {
      QuietStep(s, s');
    } else {
      assert id !in s.table;
      assert Matches(FateOf(s.log, id), s.table, id);
      assert RowLegal(s'.table[id]);
      HistoryStep(s, s', Insertion(id));
      InsertRuns(s, s', id);
    }
  }

  /** A new row is in no run's hands. */
  lemma InsertRuns(s: State, s': State, id: EventId)
    requires Inv(s) && id !in s.table && id in s'.table
    requires s' == State(s.clock, s.table[id := s'.table[id]], s.runs, s.log + [Insertion(id)])
    ensures forall p | p in s'.runs :: RunInv(s', s'.runs[p])
  {
    FatesAfter(s.log, Insertion(id));
    forall p | p in s'.runs
      ensures RunInv(s', s'.runs[p])
    {
      assert RunInv(s, s.runs[p]);
    }
  }

  lemma NewRunStep(s: State, run: RunId, r: Run)
    requires Inv(s) && RunInv(s, r) && (r.Working? ==> r.todo == [])
    ensures Inv(Log1(s, Quiet).(runs := s.runs[run := r]))
  {
    var s' := Log1(s, Quiet).(runs := s.runs[run := r]);
    FatesAfter(s.log, Quiet);
    forall p | p in s'.runs
      ensures RunInv(s', s'.runs[p])
    {
      assert p != run ==> RunInv(s, s.runs[p]);
    }
  }

  lemma CommitStep(s: State, run: RunId, order: seq<EventId>)
    requires Inv(s) && run in s.runs && s.runs[run].Selecting? && Distinct(order)
    requires forall id | id in order :: id in s.table && Due(s.table, id, s.runs[run].claimNow)
    ensures Inv(ApplyCommit(s, run, order))
  {
    var s' := ApplyCommit(s, run, order);
    var r := s.runs[run];
    assert RunInv(s, r);
    if Legal(Locked(s.table, IdSet(order), r.claimNow, r.owner)) {
      CommitHistory(s, run, order);
      CommitRuns(s, run, order);
    } else {
      NewRunStep(s, run, Working(r.owner, r.start, r.claimNow, [], None));
    }
  }

  lemma CommitHistory(s: State, run: RunId, order: seq<EventId>)
    requires Inv(s) && run in s.runs && s.runs[run].Selecting?
    requires forall id | id in order :: id in s.table && Due(s.table, id, s.runs[run].claimNow)
    requires Legal(Locked(s.table, IdSet(order), s.runs[run].claimNow, s.runs[run].owner))
    ensures HistoryInv(ApplyCommit(s, run, order)) && TableInv(ApplyCommit(s, run, order).table)
  {
    var s' := ApplyCommit(s, run, order);
    forall x | x in IdSet(order)
      ensures Matches(Next(FateOf(s.log, x), Claim(IdSet(order))), s'.table, x)
    {
      assert Matches(FateOf(s.log, x), s.table, x);
    }
    HistoryStep(s, s', Claim(IdSet(order)));
    forall x | x in s'.table
      ensures RowInv(s'.table[x])
    {
      assert RowInv(s.table[x]);
    }
  }

  lemma CommitRuns(s: State, run: RunId, order: seq<EventId>)
    requires Inv(s) && run in s.runs && s.runs[run].Selecting? && Distinct(order)
    requires forall id | id in order :: id in s.table && Due(s.table, id, s.runs[run].claimNow)
    requires Legal(Locked(s.table, IdSet(order), s.runs[run].claimNow, s.runs[run].owner))
    ensures var s' := ApplyCommit(s, run, order);
      (forall p | p in s'.runs :: RunInv(s', s'.runs[p])) && RunsApart(s')
  {
    var s' := ApplyCommit(s, run, order);
    forall p | p in s'.runs && p != run
      ensures RunInv(s', s'.runs[p])
      ensures Live(s', s'.runs[p]) ==> Apart(s'.runs[p], s'.runs[run]) && Apart(s'.runs[run], s'.runs[p])
    {
      CommitOthers(s, run, order, p);
    }
    ClaimedIsHeld(s, run, order);
    assert RunInv(s, s.runs[run]);
  }

  /** Another run keeps what it holds, which is none of the rows now claimed. */
  lemma CommitOthers(s: State, run: RunId, order: seq<EventId>, p: RunId)
    requires Inv(s) && run in s.runs && s.runs[run].Selecting? && p in s.runs && p != run
    requires forall id | id in order :: id in s.table && Due(s.table, id, s.runs[run].claimNow)
    requires Legal(Locked(s.table, IdSet(order), s.runs[run].claimNow, s.runs[run].owner))
    ensures var s' := ApplyCommit(s, run, order);
      && RunInv(s', s.runs[p])
      && (Live(s', s.runs[p]) ==> Apart(s.runs[p], s'.runs[run]) && Apart(s'.runs[run], s.runs[p]))
  {
    assert RunInv(s, s.runs[p]);
    var r := s.runs[p];
    if r.Working? && Live(s, r) {
      forall n | 0 <= n < |r.todo|
        ensures r.todo[n].id !in order
      {
        assert Holds(s.table, r, r.todo[n]);
      }
      FatesAfter(s.log, Claim(IdSet(order)));
    }
  }

  /** A run that committed its claim holds every row of it. */
  lemma ClaimedIsHeld(s: State, run: RunId, order: seq<EventId>)
    requires HistoryInv(s) && run in s.runs && s.runs[run].Selecting?
    requires forall id | id in order :: id in s.table && s.table[id].status.Pending?
    requires Legal(Locked(s.table, IdSet(order), s.runs[run].claimNow, s.runs[run].owner))
    ensures var s' := ApplyCommit(s, run, order); HoldsAll(s', s'.runs[run])
  {
    var s' := ApplyCommit(s, run, order);
    var w := s'.runs[run];
    forall n | 0 <= n < |w.todo|
      ensures Holds(s'.table, w, w.todo[n])
      ensures FateOf(s'.log, w.todo[n].id) == Held(w.todo[n].attempts, None)
    {
      var id := order[n];
      assert id in order && id in IdSet(order);
      assert Matches(FateOf(s.log, id), s.table, id);
      FateAfter(s.log, Claim(IdSet(order)), id);
    }
  }

  lemma DeliverStep(s: State, run: RunId, v: Verdict)
    requires Inv(s) && HasTodo(s, run) && Live(s, s.runs[run]) && s.runs[run].verdict.None?
    ensures Inv(Log1(s, Delivery(s.runs[run].todo[0].id, v)).(runs := s.runs[run := s.runs[run].(verdict := Some(v))]))
  {
    var r := s.runs[run];
    var id := r.todo[0].id;
    var s' := Log1(s, Delivery(id, v)).(runs := s.runs[run := r.(verdict := Some(v))]);
    assert RunInv(s, r);
    FatesAfter(s.log, Delivery(id, v));
    forall x
      ensures Matches(FateOf(s'.log, x), s'.table, x)
    {
      assert Matches(FateOf(s.log, x), s.table, x);
    }
    forall p | p in s'.runs
      ensures RunInv(s', s'.runs[p])
    {
      assert RunInv(s, s.runs[p]);
      assert p != run && Live(s, s.runs[p]) ==> Apart(s.runs[p], r);
    }
    ApartAfter(s, s', run);
  }

  /** Shrinking one run's todo keeps live runs apart. */
  lemma ApartAfter(s: State, s': State, run: RunId)
    requires RunsApart(s) && s'.clock == s.clock && run in s.runs && s'.runs.Keys == s.runs.Keys
    requires forall p | p in s.runs && p != run :: s'.runs[p] == s.runs[p]
    requires s.runs[run].Working? && s'.runs[run].Working? && s'.runs[run].start == s.runs[run].start
    requires forall k | k in s'.runs[run].todo :: k in s.runs[run].todo
    ensures RunsApart(s')
  {
    forall p, q | p in s'.runs && q in s'.runs && p != q && Live(s', s'.runs[p]) && Live(s', s'.runs[q])
      ensures Apart(s'.runs[p], s'.runs[q])
    {
      assert Apart(s.runs[p], s.runs[q]);
      if s'.runs[p].Working? && s'.runs[q].Working? {
        forall m, n | 0 <= m < |s'.runs[p].todo| && 0 <= n < |s'.runs[q].todo|
          ensures s'.runs[p].todo[m].id != s'.runs[q].todo[n].id
        {
          assert s'.runs[p].todo[m] in s.runs[p].todo && s'.runs[q].todo[n] in s.runs[q].todo;
          var a :| 0 <= a < |s.runs[p].todo| && s.runs[p].todo[a] == s'.runs[p].todo[m];
          var b :| 0 <= b < |s.runs[q].todo| && s.runs[q].todo[b] == s'.runs[q].todo[n];
        }
      }
    }
  }

  /** Marking a held row below its limit breaks no constraint and keeps the invariant of every row. */
  lemma MarkKeepsTableInv(t: Table, id: EventId, m: Mark)
    requires TableInv(t) && id in t && t[id].status.Processing?
    requires m.Retry? ==> t[id].attempts + 1 < t[id].maxAttempts
    ensures Legal(Marked(t, id, m)) && TableInv(Marked(t, id, m))
  {
    var after := Marked(t, id, m);
    assert RowInv(t[id]);
    forall x | x in after
      ensures RowInv(after[x])
    {
      assert x != id ==> RowInv(t[x]);
    }
  }

  /** Under the invariant a mark always passes the constraints, and the row it rewrites is its own. */
  lemma MarkIsAccepted(s: State, run: RunId, m: Mark)
    requires Inv(s) && HasTodo(s, run) && Live(s, s.runs[run])
    requires m.Retry? ==> s.runs[run].todo[0].attempts + 1 < s.runs[run].todo[0].maxAttempts
    ensures Holds(s.table, s.runs[run], s.runs[run].todo[0])
    ensures Legal(Marked(s.table, s.runs[run].todo[0].id, m)) && TableInv(Marked(s.table, s.runs[run].todo[0].id, m))
  {
    assert RunInv(s, s.runs[run]);
    assert Holds(s.table, s.runs[run], s.runs[run].todo[0]);
    MarkKeepsTableInv(s.table, s.runs[run].todo[0].id, m);
  }

  lemma MarkStep(s: State, run: RunId, err: string, backoff: int)
    requires Inv(s) && HasTodo(s, run) && Live(s, s.runs[run]) && s.runs[run].verdict.Some?
    ensures Inv(ApplyMark(s, run, err, backoff))
    ensures ApplyMark(s, run, err, backoff).log[|s.log|].Marking?
  {
    var r := s.runs[run];
    var k := r.todo[0];
    var m := MarkFor(k, r.verdict.value, s.clock, err, backoff);
    MarkIsAccepted(s, run, m);
    var s' := ApplyMark(s, run, err, backoff);
    assert RunInv(s, r);
    assert FateOf(s.log, k.id) == Held(k.attempts, r.verdict);
    HistoryStep(s, s', Marking(k.id, m));
    MarkRuns(s, run, m, s');
    ApartAfter(s, s', run);
  }

  /** The other runs keep their claims when one run marks its own row. */
  lemma MarkRuns(s: State, run: RunId, m: Mark, s': State)
    requires Inv(s) && HasTodo(s, run) && Live(s, s.runs[run])
    requires s' == State(s.clock, Marked(s.table, s.runs[run].todo[0].id, m), Advance(s, run),
                         s.log + [Marking(s.runs[run].todo[0].id, m)])
    ensures forall p | p in s'.runs :: RunInv(s', s'.runs[p])
  {
    var r := s.runs[run];
    assert RunInv(s, r);
    FatesAfter(s.log, Marking(r.todo[0].id, m));
    forall p | p in s'.runs
      ensures RunInv(s', s'.runs[p])
    {
      assert RunInv(s, s.runs[p]);
      if p != run && Live(s, s.runs[p]) && s.runs[p].Working? {
        assert Apart(s.runs[p], r);
      }
    }
  }

  lemma SkipStep(s: State, run: RunId)
    requires Inv(s) && HasTodo(s, run)
    ensures Inv(Log1(s, Quiet).(runs := Advance(s, run)))
  {
    var s' := Log1(s, Quiet).(runs := Advance(s, run));
    FatesAfter(s.log, Quiet);
    assert RunInv(s, s.runs[run]);
    forall p | p in s'.runs
      ensures RunInv(s', s'.runs[p])
    {
      assert RunInv(s, s.runs[p]);
    }
    ApartAfter(s, s', run);
  }

  /** The timing argument: a row of a live run is never old enough to be reset. */
  lemma LiveIsNotStuck(c: Config, s: State, p: RunId, n: nat)
    requires SafeConfig(c) && Inv(s) && p in s.runs && s.runs[p].Working? && Live(s, s.runs[p])
    requires n < |s.runs[p].todo|
    ensures s.runs[p].todo[n].id in s.table && !Stuck(s.table[s.runs[p].todo[n].id], s.clock, c.stuckAfter)
  {
    assert RunInv(s, s.runs[p]);
    assert Holds(s.table, s.runs[p], s.runs[p].todo[n]);
  }

  lemma ResetStep(c: Config, s: State)
    requires SafeConfig(c) && Inv(s)
    ensures Inv(Apply(c, s, ResetStuck))
  {
    ResetHistory(c, s);
    ResetRuns(c, s);
  }

  lemma ResetHistory(c: Config, s: State)
    requires Inv(s)
    ensures HistoryInv(Apply(c, s, ResetStuck)) && TableInv(Apply(c, s, ResetStuck).table)
  {
    var s' := Apply(c, s, ResetStuck);
    FatesAfter(s.log, Release(StuckIds(s.table, s.clock, c.stuckAfter)));
    forall x
      ensures Matches(FateOf(s'.log, x), s'.table, x)
    {
      assert Matches(FateOf(s.log, x), s.table, x);
    }
    forall id | id in s'.table
      ensures RowInv(s'.table[id])
    {
      assert RowInv(s.table[id]);
    }
  }

  lemma ResetRuns(c: Config, s: State)
    requires SafeConfig(c) && Inv(s)
    ensures var s' := Apply(c, s, ResetStuck);
      (forall p | p in s'.runs :: RunInv(s', s'.runs[p])) && RunsApart(s')
  {
    var s' := Apply(c, s, ResetStuck);
    FatesAfter(s.log, Release(StuckIds(s.table, s.clock, c.stuckAfter)));
    forall p | p in s'.runs
      ensures RunInv(s', s'.runs[p])
    {
      assert RunInv(s, s.runs[p]);
      if s.runs[p].Working? && Live(s, s.runs[p]) {
        forall n | 0 <= n < |s.runs[p].todo| {
          LiveIsNotStuck(c, s, p, n);
        }
      }
    }
  }

  lemma DeleteStep(c: Config, s: State, ids: set<EventId>)
    requires Inv(s) && ids <= ExpiredIds(s.table, s.clock, c.retention)
    ensures Inv(Log1(s, Purge(ids)).(table := s.table - ids))
  {
    var s' := Log1(s, Purge(ids)).(table := s.table - ids);
    FatesAfter(s.log, Purge(ids));
    forall x
      ensures Matches(FateOf(s'.log, x), s'.table, x)
    {
      assert Matches(FateOf(s.log, x), s.table, x);
    }
    forall p | p in s'.runs
      ensures RunInv(s', s'.runs[p])
    {
      assert RunInv(s, s.runs[p]);
    }
  }

  lemma StepKeepsInv(c: Config, s: State, a: Action)
    requires SafeConfig(c) && Inv(s) && Enabled(c, s, a)
    ensures Inv(Apply(c, s, a))
  {
    match a
    case Tick(d) => QuietStep(s, Apply(c, s, a));
    case Insert(id, e, maxAttempts, at) => InsertStep(s, id, e, maxAttempts, at);
    case StartRun(run, owner) => NewRunStep(s, run, Starting(owner, s.clock));
    case BeginClaim(run) =>
      assert RunInv(s, s.runs[run]);
      NewRunStep(s, run, Selecting(s.runs[run].owner, s.runs[run].start, s.clock, s.table));
    case CommitClaim(run, order) => CommitStep(s, run, order);
    case Deliver(run, v) => DeliverStep(s, run, v);
    case MarkHead(run, err, backoff) => MarkStep(s, run, err, backoff);
    case SkipHead(run) => SkipStep(s, run);
    case EndRun(run) => QuietStep(s, Apply(c, s, a));
    case ResetStuck => ResetStep(c, s);
    case DeleteBatch(ids) => DeleteStep(c, s, ids);
  }

  lemma {:induction false} Reachable(c: Config, acts: seq<Action>)
    requires SafeConfig(c) && Valid(c, acts)
    ensures Inv(Exec(c, acts))
  {
    if acts != [] {
      Reachable(c, acts[..|acts| - 1]);
      StepKeepsInv(c, Exec(c, acts[..|acts| - 1]), acts[|acts| - 1]);
    }
  }
}
