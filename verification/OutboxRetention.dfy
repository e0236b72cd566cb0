/**
 No event is lost.  Two thresholds protect an event: the reaper's, and the
 retention of published rows.  Either one covering the job timeout is enough,
 and without both an event can vanish undelivered.
 */
module OutboxRetention {
  import opened Wrappers
  import opened OutboxTable
  import opened OutboxHistory
  import opened OutboxProtocol
  import opened OutboxSafety
  import opened OutboxProgress
  import opened OutboxThreshold

  // ---------- what became of an event since its last insertion ----------

  datatype Trail = Never | Lives | Delivered | Sent | Gone | Lost

  function NextTrail(t: Trail, e: Entry): Trail {
    match (t, e)
    case (Lost, _) => Lost
    case (_, Insertion(_)) => Lives
    case (Lives, Delivery(_, HandlersOk)) => Delivered
    case (Delivered, Marking(_, Publish(_))) => Sent
    case (Sent, Purge(_)) => Gone
    case (_, Purge(_)) => Lost
    case _ => t
  }

  function TrailOf(log: Log, id: EventId): Trail {
    if log == [] then Never
    else
      var t := TrailOf(log[..|log| - 1], id);
      if About(log[|log| - 1], id) then NextTrail(t, log[|log| - 1]) else t
  }

  lemma TrailsAfter(log: Log, e: Entry)
    ensures forall id ::
      TrailOf(log + [e], id) == if About(e, id) then NextTrail(TrailOf(log, id), e) else TrailOf(log, id)
  {
    assert (log + [e])[..|log|] == log;
  }

  lemma {:induction false} TrailDelivered(log: Log, id: EventId, i: nat) returns (d: nat)
    requires TrailOf(log, id).Delivered? && i < |log| && log[i] == Insertion(id)
    ensures i < d < |log| && log[d] == Delivery(id, HandlersOk)
  {
    var n := |log| - 1;
    if About(log[n], id) && log[n] == Delivery(id, HandlersOk) {
      d := n;
    } else {
      d := TrailDelivered(log[..n], id, i);
    }
  }

  lemma {:induction false} TrailSent(log: Log, id: EventId, i: nat) returns (d: nat, m: nat)
    requires TrailOf(log, id).Sent? && i < |log| && log[i] == Insertion(id)
    ensures i < d < m < |log| && log[d] == Delivery(id, HandlersOk)
    ensures log[m].Marking? && log[m].id == id && log[m].mark.Publish?
  {
    var n := |log| - 1;
    if TrailOf(log[..n], id).Delivered? {
      m := n;
      d := TrailDelivered(log[..n], id, i);
    } else {
      d, m := TrailSent(log[..n], id, i);
    }
  }

  lemma {:induction false} TrailGone(log: Log, id: EventId, i: nat) returns (d: nat, m: nat, p: nat)
    requires TrailOf(log, id).Gone? && i < |log| && log[i] == Insertion(id)
    ensures i < d < m < p < |log| && log[d] == Delivery(id, HandlersOk)
    ensures log[m].Marking? && log[m].id == id && log[m].mark.Publish?
    ensures log[p].Purge? && id in log[p].ids
  {
    var n := |log| - 1;
    if TrailOf(log[..n], id).Sent? {
      p := n;
      d, m := TrailSent(log[..n], id, i);
    } else {
      d, m, p := TrailGone(log[..n], id, i);
    }
  }

  // ---------- the invariant ----------

  predicate Agrees(t: Trail, table: Table, id: EventId) {
    match t
    case Never => id !in table
    case Lives => id in table && !table[id].status.Published?
    case Delivered => id in table && !table[id].status.Published?
    case Sent => id in table
    case Gone => id !in table
    case Lost => false
  }

  /** A live run's tickets name present rows, none published before the run began, and its success is on record. */
  ghost predicate RunKeeps(s: State, r: Run) {
    && r.start <= s.clock
    && (r.Working? && Live(s, r) ==>
          && (forall n | 0 <= n < |r.todo| :: PresentFor(s.table, r, r.todo[n].id))
          && (r.todo != [] && r.verdict == Some(HandlersOk) ==>
                TrailOf(s.log, r.todo[0].id).Delivered? || TrailOf(s.log, r.todo[0].id).Sent?))
  }

  predicate PresentFor(t: Table, r: Run, id: EventId) {
    id in t && (t[id].status.Published? ==> t[id].publishedAt.Some? && r.start <= t[id].publishedAt.value)
  }

  ghost predicate KeptInv(s: State) {
    && Legal(s.table)
    && (forall id :: Agrees(TrailOf(s.log, id), s.table, id))
    && (forall p | p in s.runs :: RunKeeps(s, s.runs[p]))
  }

  /** Either threshold covers the job timeout. */
  predicate KeepsEvents(c: Config) {
    JOB_TIMEOUT <= c.stuckAfter || JOB_TIMEOUT <= c.retention
  }

  /** A step that touches neither rows nor, except for one run, tickets. */
  lemma QuietKeeps(s: State, s': State, run: RunId)
    requires KeptInv(s) && s'.log == s.log + [Quiet] && s'.table == s.table && s.clock <= s'.clock
    requires forall p | p in s'.runs && p != run :: p in s.runs && s'.runs[p] == s.runs[p]
    requires run in s'.runs ==> RunKeeps(s', s'.runs[run])
    ensures KeptInv(s')
  {
    TrailsAfter(s.log, Quiet);
    forall p | p in s'.runs
      ensures RunKeeps(s', s'.runs[p])
    {
      if p != run {
        assert RunKeeps(s, s.runs[p]);
      }
    }
  }

  lemma InsertKeeps(s: State, id: EventId, e: Event, maxAttempts: int, at: Time, run: RunId)
    requires KeptInv(s) && run !in s.runs
    ensures KeptInv(ApplyInsert(s, id, e, maxAttempts, at))
  {
    var s' := ApplyInsert(s, id, e, maxAttempts, at);
    if s'.table == s.table {
      QuietKeeps(s, s', run);
    } else {
      TrailsAfter(s.log, Insertion(id));
      assert Agrees(TrailOf(s.log, id), s.table, id);
      forall p | p in s'.runs
        ensures RunKeeps(s', s'.runs[p])
      {
        assert RunKeeps(s, s.runs[p]);
      }
    }
  }

  lemma CommitKeeps(s: State, run: RunId, order: seq<EventId>)
    requires KeptInv(s) && run in s.runs && s.runs[run].Selecting?
    requires forall id | id in order :: id in s.table && s.table[id].status.Pending?
    ensures KeptInv(ApplyCommit(s, run, order))
  {
    var r := s.runs[run];
    assert RunKeeps(s, r);
    if Legal(Locked(s.table, IdSet(order), r.claimNow, r.owner)) {
      CommittedTrails(s, run, order);
      CommittedRuns(s, run, order);
    } else {
      QuietKeeps(s, ApplyCommit(s, run, order), run);
    }
  }

  lemma CommittedTrails(s: State, run: RunId, order: seq<EventId>)
    requires KeptInv(s) && run in s.runs && s.runs[run].Selecting?
    requires forall id | id in order :: id in s.table && s.table[id].status.Pending?
    requires Legal(Locked(s.table, IdSet(order), s.runs[run].claimNow, s.runs[run].owner))
    ensures var s' := ApplyCommit(s, run, order);
      forall x :: TrailOf(s'.log, x) == TrailOf(s.log, x) && Agrees(TrailOf(s'.log, x), s'.table, x)
  {
    var s' := ApplyCommit(s, run, order);
    TrailsAfter(s.log, Claim(IdSet(order)));
    forall x
      ensures TrailOf(s'.log, x) == TrailOf(s.log, x) && Agrees(TrailOf(s'.log, x), s'.table, x)
    {
      assert Agrees(TrailOf(s.log, x), s.table, x);
    }
  }

  lemma CommittedRuns(s: State, run: RunId, order: seq<EventId>)
    requires KeptInv(s) && run in s.runs && s.runs[run].Selecting?
    requires forall id | id in order :: id in s.table && s.table[id].status.Pending?
    requires Legal(Locked(s.table, IdSet(order), s.runs[run].claimNow, s.runs[run].owner))
    requires forall x :: TrailOf(ApplyCommit(s, run, order).log, x) == TrailOf(s.log, x)
    ensures var s' := ApplyCommit(s, run, order); forall p | p in s'.runs :: RunKeeps(s', s'.runs[p])
  {
    var s' := ApplyCommit(s, run, order);
    forall p | p in s'.runs
      ensures RunKeeps(s', s'.runs[p])
    {
      assert RunKeeps(s, s.runs[p]);
      assert p == run ==> forall n | 0 <= n < |order| :: order[n] in order;
    }
  }

  lemma DeliverKeeps(s: State, run: RunId, v: Verdict)
    requires KeptInv(s) && HasTodo(s, run) && Live(s, s.runs[run])
    ensures KeptInv(Log1(s, Delivery(s.runs[run].todo[0].id, v)).(
      runs := s.runs[run := s.runs[run].(verdict := Some(v))]))
  {
    var id := s.runs[run].todo[0].id;
    var s' := Log1(s, Delivery(id, v)).(runs := s.runs[run := s.runs[run].(verdict := Some(v))]);
    TrailsAfter(s.log, Delivery(id, v));
    assert RunKeeps(s, s.runs[run]);
    forall x
      ensures Agrees(TrailOf(s'.log, x), s'.table, x)
    {
      assert Agrees(TrailOf(s.log, x), s.table, x);
    }
    forall p | p in s'.runs
      ensures RunKeeps(s', s'.runs[p])
    {
      assert RunKeeps(s, s.runs[p]);
    }
  }

  lemma MarkKeeps(s: State, run: RunId, err: string, backoff: int)
    requires KeptInv(s) && HasTodo(s, run) && Live(s, s.runs[run]) && s.runs[run].verdict.Some?
    ensures KeptInv(ApplyMark(s, run, err, backoff))
  {
    var r := s.runs[run];
    var id := r.todo[0].id;
    var m := MarkFor(r.todo[0], r.verdict.value, s.clock, err, backoff);
    var s' := ApplyMark(s, run, err, backoff);
    assert RunKeeps(s, r) && PresentFor(s.table, r, id);
    if Legal(Marked(s.table, id, m)) {
      MarkAcceptedIff(s.table, id, m);
      MarkedTrails(s, run, m, s');
      forall p | p in s'.runs
        ensures RunKeeps(s', s'.runs[p])
      {
        assert RunKeeps(s, s.runs[p]);
        if p == run {
          assert forall n | 0 <= n < |r.todo[1..]| :: r.todo[1..][n] == r.todo[n + 1];
        }
      }
    } else {
      assert RunKeeps(s', s'.runs[run]) by {
        assert forall n | 0 <= n < |r.todo[1..]| :: r.todo[1..][n] == r.todo[n + 1];
        TrailsAfter(s.log, Quiet);
      }
      QuietKeeps(s, s', run);
    }
  }

  lemma MarkedTrails(s: State, run: RunId, m: Mark, s': State)
    requires KeptInv(s) && HasTodo(s, run) && Live(s, s.runs[run])
    requires m.Publish? ==> s.runs[run].verdict == Some(HandlersOk)
    requires var id := s.runs[run].todo[0].id;
      && id in s.table && (m.Publish? || !s.table[id].status.Published?)
      && s'.table == Marked(s.table, id, m) && s'.log == s.log + [Marking(id, m)]
    ensures forall x :: Agrees(TrailOf(s'.log, x), s'.table, x)
    ensures forall x :: TrailOf(s.log, x).Delivered? || TrailOf(s.log, x).Sent? ==>
      TrailOf(s'.log, x).Delivered? || TrailOf(s'.log, x).Sent?
  {
    var id := s.runs[run].todo[0].id;
    TrailsAfter(s.log, Marking(id, m));
    assert RunKeeps(s, s.runs[run]);
    forall x
      ensures Agrees(TrailOf(s'.log, x), s'.table, x)
    {
      assert Agrees(TrailOf(s.log, x), s.table, x);
    }
  }

  lemma ResetKeeps(c: Config, s: State)
    requires KeptInv(s) && Legal(Reset(s.table, s.clock, c.stuckAfter))
    ensures KeptInv(Apply(c, s, ResetStuck))
  {
    var s' := Apply(c, s, ResetStuck);
    TrailsAfter(s.log, Release(StuckIds(s.table, s.clock, c.stuckAfter)));
    forall x
      ensures Agrees(TrailOf(s'.log, x), s'.table, x)
    {
      assert Agrees(TrailOf(s.log, x), s.table, x);
    }
    forall p | p in s'.runs
      ensures RunKeeps(s', s'.runs[p])
    {
      assert RunKeeps(s, s.runs[p]);
    }
  }

  /** No live run has a ticket for a row about to be purged. */
  ghost predicate Unticketed(s: State, ids: set<EventId>) {
    forall p | p in s.runs && s.runs[p].Working? && Live(s, s.runs[p]) ::
      forall n | 0 <= n < |s.runs[p].todo| :: s.runs[p].todo[n].id !in ids
  }

  /** With a long retention the ticket's run is over; with a long threshold the row is still held. */
  lemma ExpiredAreUnticketed(c: Config, s: State, ids: set<EventId>)
    requires KeepsEvents(c) && KeptInv(s) && (SafeConfig(c) ==> Inv(s))
    requires ids <= ExpiredIds(s.table, s.clock, c.retention)
    ensures Unticketed(s, ids)
  {
    forall p, n | p in s.runs && s.runs[p].Working? && Live(s, s.runs[p]) && 0 <= n < |s.runs[p].todo|
      ensures s.runs[p].todo[n].id !in ids
    {
      var r := s.runs[p];
      assert RunKeeps(s, r) && PresentFor(s.table, r, r.todo[n].id);
      if SafeConfig(c) {
        assert RunInv(s, r);
        assert Holds(s.table, r, r.todo[n]);
      }
    }
  }

  lemma DeleteKeeps(c: Config, s: State, ids: set<EventId>)
    requires KeptInv(s) && ids <= ExpiredIds(s.table, s.clock, c.retention) && Unticketed(s, ids)
    ensures KeptInv(Log1(s, Purge(ids)).(table := s.table - ids))
  {
    var s' := Log1(s, Purge(ids)).(table := s.table - ids);
    TrailsAfter(s.log, Purge(ids));
    forall x
      ensures Agrees(TrailOf(s'.log, x), s'.table, x)
    {
      assert Agrees(TrailOf(s.log, x), s.table, x);
    }
    forall p | p in s'.runs
      ensures RunKeeps(s', s'.runs[p])
    {
      assert RunKeeps(s, s.runs[p]);
    }
  }

  lemma StepKeeps(c: Config, s: State, a: Action)
    requires KeepsEvents(c) && KeptInv(s) && (SafeConfig(c) ==> Inv(s)) && Enabled(c, s, a)
    ensures KeptInv(Apply(c, s, a))
  {
    var spare := AboveAll(s.runs.Keys);
    match a
    case Tick(d) => QuietKeeps(s, Apply(c, s, a), spare);
    case Insert(id, e, maxAttempts, at) => InsertKeeps(s, id, e, maxAttempts, at, spare);
    case StartRun(run, owner) => QuietKeeps(s, Apply(c, s, a), run);
    case BeginClaim(run) =>
      assert RunKeeps(s, s.runs[run]);
      QuietKeeps(s, Apply(c, s, a), run);
    case CommitClaim(run, order) => CommitKeeps(s, run, order);
    case Deliver(run, v) => DeliverKeeps(s, run, v);
    case MarkHead(run, err, backoff) => MarkKeeps(s, run, err, backoff);
    case SkipHead(run) => SkipKeeps(s, run);
    case EndRun(run) => QuietKeeps(s, Apply(c, s, a), run);
    case ResetStuck =>
      StepKeepsLegal(c, s, a);
      ResetKeeps(c, s);
    case DeleteBatch(ids) =>
      ExpiredAreUnticketed(c, s, ids);
      DeleteKeeps(c, s, ids);
  }

  lemma SkipKeeps(s: State, run: RunId)
    requires KeptInv(s) && HasTodo(s, run)
    ensures KeptInv(Log1(s, Quiet).(runs := Advance(s, run)))
  {
    var s' := Log1(s, Quiet).(runs := Advance(s, run));
    var r := s.runs[run];
    assert RunKeeps(s, r);
    assert forall n | 0 <= n < |r.todo[1..]| :: r.todo[1..][n] == r.todo[n + 1];
    QuietKeeps(s, s', run);
  }

  lemma {:induction false} AlwaysKeeps(c: Config, acts: seq<Action>)
    requires KeepsEvents(c) && Valid(c, acts)
    ensures KeptInv(Exec(c, acts))
  {
    if acts != [] {
      var n := |acts| - 1;
      AlwaysKeeps(c, acts[..n]);
      if SafeConfig(c) {
        Reachable(c, acts[..n]);
      }
      StepKeeps(c, Exec(c, acts[..n]), acts[n]);
    }
  }

  // ---------- the guarantee ----------

  /** Delivered with every handler succeeding, then published, then purged after outliving the retention. */
  ghost predicate Departed(c: Config, acts: seq<Action>, id: EventId, i: nat, d: nat, m: nat, p: nat)
    requires Valid(c, acts)
  {
    var log := Exec(c, acts).log;
    && i < d < m < p < |log| && p <= |acts|
    && log[d] == Delivery(id, HandlersOk)
    && log[m].Marking? && log[m].id == id && log[m].mark.Publish?
    && log[p].Purge? && id in log[p].ids
    && Valid(c, acts[..p]) && id in ExpiredIds(Exec(c, acts[..p]).table, Exec(c, acts[..p]).clock, c.retention)
  }

  /** When one of the thresholds covers the timeout, an inserted id is in the table or departed in good order. */
  lemma NoEventIsLost(c: Config, acts: seq<Action>, id: EventId, i: nat)
    requires KeepsEvents(c) && Valid(c, acts)
    requires i < |Exec(c, acts).log| && Exec(c, acts).log[i] == Insertion(id)
    ensures id in Exec(c, acts).table || exists d, m, p :: Departed(c, acts, id, i, d, m, p)
  {
    var s := Exec(c, acts);
    AlwaysKeeps(c, acts);
    assert Agrees(TrailOf(s.log, id), s.table, id);
    if id !in s.table {
      InsertedIsNotNever(s.log, id, i);
      var d, m, p := TrailGone(s.log, id, i);
      LogPrefix(c, acts, |acts|);
      PurgedWasExpired(c, acts, id, p);
      assert Departed(c, acts, id, i, d, m, p);
    }
  }

  lemma {:induction false} InsertedIsNotNever(log: Log, id: EventId, i: nat)
    requires i < |log| && log[i] == Insertion(id)
    ensures !TrailOf(log, id).Never?
  {
    var n := |log| - 1;
    if i < n {
      InsertedIsNotNever(log[..n], id, i);
    }
  }

  // ---------- a run that loses an event ----------

  /** A row published just now outlives the retention and is purged. */
  lemma WaitAndPurge(c: Config, acts: seq<Action>, id: EventId) returns (acts': seq<Action>)
    requires Valid(c, acts) && id in Exec(c, acts).table
    requires var s := Exec(c, acts); s.table[id].status.Published? && s.table[id].publishedAt == Some(s.clock)
    ensures Valid(c, acts') && acts <= acts'
    ensures var s := Exec(c, acts);
      Exec(c, acts') == State(s.clock + Wait(c.retention), s.table - {id}, s.runs, s.log + [Quiet] + [Purge({id})])
  {
    Extend(c, acts, Tick(Wait(c.retention)));
    var acts1 := acts + [Tick(Wait(c.retention))];
    Extend(c, acts1, DeleteBatch({id}));
    acts' := acts1 + [DeleteBatch({id})];
  }

  /** Two runs hold a ticket for event 0; one has published it, the other has delivered it and may still mark it. */
  lemma PublishedTwiceTicketed(c: Config) returns (acts: seq<Action>)
    requires 0 < c.batchSize && c.stuckAfter < JOB_TIMEOUT
    ensures Valid(c, acts)
    ensures var s := Exec(c, acts);
      && 0 in s.table && s.table[0].status.Published? && s.table[0].publishedAt == Some(s.clock)
      && HasTodo(s, 1) && s.runs[1].start == s.clock
      && s.runs[1].verdict == Some(HandlersOk) && s.runs[1].todo[0].id == 0
  {
    var taken := FirstTaken(c);
    var s := Exec(c, taken);
    DueLater(s.table, s.clock);
    var claimed := ClaimAlone(c, taken, 1, 0);
    OneInFlightPerUser(c, claimed);
    PublishKeepsLegal(Exec(c, claimed).table, 0, s.clock);
    assert Exec(c, claimed).runs[0] == s.runs[0];
    acts := DeliverAndMark(c, claimed, 0, HandlersOk, "", 0);
    Extend(c, acts, Deliver(1, HandlersOk));
    acts := acts + [Deliver(1, HandlersOk)];
  }

  lemma PurgedStaysTicketed(c: Config) returns (acts: seq<Action>)
    requires 0 < c.batchSize && !KeepsEvents(c)
    ensures Valid(c, acts)
    ensures var s := Exec(c, acts);
      && 0 !in s.table
      && HasTodo(s, 1) && Live(s, s.runs[1]) && s.runs[1].verdict == Some(HandlersOk) && s.runs[1].todo[0].id == 0
  {
    acts := PublishedTwiceTicketed(c);
    acts := WaitAndPurge(c, acts, 0);
  }

  /** The event inserted afresh is published by the run that never delivered it, and purged. */
  lemma EventLost(c: Config) returns (acts: seq<Action>, i: nat)
    requires 0 < c.batchSize && !KeepsEvents(c)
    ensures Valid(c, acts) && 0 !in Exec(c, acts).table
    ensures i < |Exec(c, acts).log| && Exec(c, acts).log[i] == Insertion(0)
    ensures forall m | i < m < |Exec(c, acts).log| :: !Exec(c, acts).log[m].Delivery?
  {
    var purged := PurgedStaysTicketed(c);
    i := |Exec(c, purged).log|;
    var marked := InsertAndMark(c, purged);
    acts := WaitAndPurge(c, marked, 0);
  }

  lemma InsertAndMark(c: Config, acts: seq<Action>) returns (acts': seq<Action>)
    requires Valid(c, acts)
    requires var s := Exec(c, acts);
      && 0 !in s.table
      && HasTodo(s, 1) && Live(s, s.runs[1]) && s.runs[1].verdict == Some(HandlersOk) && s.runs[1].todo[0].id == 0
    ensures Valid(c, acts')
    ensures var s, s' := Exec(c, acts), Exec(c, acts');
      && 0 in s'.table && s'.table[0].status.Published? && s'.table[0].publishedAt == Some(s'.clock)
      && s'.log == s.log + [Insertion(0)] + [Marking(0, Publish(s.clock))]
  {
    var s := Exec(c, acts);
    var row := NewRow(USER_EVENT, 3, s.clock);
    OneInFlightPerUser(c, acts);
    assert Legal(s.table[0 := row]);
    PublishKeepsLegal(s.table[0 := row], 0, s.clock);
    Extend(c, acts, Insert(0, USER_EVENT, 3, s.clock));
    var inserted := acts + [Insert(0, USER_EVENT, 3, s.clock)];
    Extend(c, inserted, MarkHead(1, "", 0));
    acts' := inserted + [MarkHead(1, "", 0)];
  }

  ghost predicate AlwaysKept(c: Config) {
    forall acts, id, i: nat | Valid(c, acts) && i < |Exec(c, acts).log| && Exec(c, acts).log[i] == Insertion(id) ::
      id in Exec(c, acts).table || exists d, m, p :: Departed(c, acts, id, i, d, m, p)
  }

  /** No event is lost in any run exactly when the reaper's threshold or the retention covers the job timeout. */
  lemma NoEventIsLostIff(c: Config)
    requires 0 < c.batchSize
    ensures AlwaysKept(c) <==> KeepsEvents(c)
  {
    if KeepsEvents(c) {
      forall acts, id, i: nat | Valid(c, acts) && i < |Exec(c, acts).log| && Exec(c, acts).log[i] == Insertion(id)
        ensures id in Exec(c, acts).table || exists d, m, p :: Departed(c, acts, id, i, d, m, p)
      {
        NoEventIsLost(c, acts, id, i);
      }
    } else {
      var acts, i := EventLost(c);
      assert Exec(c, acts).log[i] == Insertion(0);
    }
  }
}
