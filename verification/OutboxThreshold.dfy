/**
 What the reaper's threshold decides.  Nothing checks it when the program is
 configured; these guarantees hold in every run exactly when it is at least the
 job timeout.
 */
module OutboxThreshold {
  import opened Wrappers
  import opened OutboxTable
  import opened OutboxHistory
  import opened OutboxProtocol
  import opened OutboxSafety
  import opened OutboxProgress

  // ---------- a run that loses its row ----------

  /** The wait after which the reaper takes a row that was locked just now. */
  function Wait(threshold: int): nat {
    if threshold < 0 then 0 else threshold + 1
  }

  predicate Unheld(t: Table) {
    forall id | id in t :: !t[id].status.Processing? && t[id].lockedAt.None? && t[id].lockedBy.None?
  }

  /** Once the wait is over, the reaper gives back the only row that is held. */
  lemma TakeBack(c: Config, acts: seq<Action>, id: EventId, t: Table) returns (acts': seq<Action>)
    requires Valid(c, acts) && id in t && t[id].status.Pending? && Unheld(t)
    requires Exec(c, acts).table == Locked(t, {id}, Exec(c, acts).clock, "w")
    ensures Valid(c, acts') && |acts'| == |acts| + 2
    ensures var s := Exec(c, acts);
      Exec(c, acts') == State(s.clock + Wait(c.stuckAfter), t, s.runs, s.log + [Quiet] + [Release({id})])
  {
    var s, tick := Exec(c, acts), Tick(Wait(c.stuckAfter));
    OneIsStuck(c, t, id, s.clock);
    Extend(c, acts, tick);
    var acts1 := acts + [tick];
    assert Exec(c, acts1) == State(s.clock + Wait(c.stuckAfter), s.table, s.runs, s.log + [Quiet]);
    Extend(c, acts1, ResetStuck);
    acts' := acts1 + [ResetStuck];
  }

  lemma OneIsStuck(c: Config, t: Table, id: EventId, at: Time)
    requires id in t && t[id].status.Pending? && Unheld(t)
    ensures var held, now := Locked(t, {id}, at, "w"), at + Wait(c.stuckAfter);
      StuckIds(held, now, c.stuckAfter) == {id} && Reset(held, now, c.stuckAfter) == t
  {
  }

  /** Run 0 holds the ticket of event 0; nothing was inserted since the beginning, and event 1 was never claimed. */
  ghost predicate StaleTicket(c: Config, s: State) {
    && s.clock == Wait(c.stuckAfter) && 0 in s.runs && s.runs[0].Working? && s.runs[0].start == 0
    && s.runs[0].verdict.None? && |s.runs[0].todo| == 1 && s.runs[0].todo[0].id == 0
    && Unclaimed(s.log, |s.log|, 1) && 2 <= |s.log| && forall m | 2 <= m < |s.log| :: !s.log[m].Insertion?
  }

  /** The events of one user wait; run 0 has claimed the first, and the reaper has taken it back. */
  lemma FirstTaken(c: Config) returns (acts: seq<Action>)
    requires 0 < c.batchSize
    ensures Valid(c, acts) && |Exec(c, acts).log| == |acts|
    ensures var s := Exec(c, acts);
      && StaleTicket(c, s) && TwoWaiting(s.table) && s.runs.Keys == {0}
      && s.runs[0].todo[0] == TicketFor(s.table, 0) && TallyOf(s.log, 0) == Tally(1, 0, 0, 1)
  {
    var start := TwoInserts(c);
    var t := Exec(c, start).table;
    ServingOrder(t, Marked(t, 0, Publish(0)));
    var claimed := ClaimAlone(c, start, 0, 0);
    acts := TakeBack(c, claimed, 0, t);
    TakenState(c, t, Exec(c, acts));
  }

  lemma TakenState(c: Config, t: Table, s: State)
    requires TwoWaiting(t) && s == State(Wait(c.stuckAfter), t, map[0 := Working("w", 0, 0, [TicketFor(t, 0)], None)],
      [Insertion(0), Insertion(1)] + [Quiet, Quiet, Claim({0})] + [Quiet] + [Release({0})])
    ensures StaleTicket(c, s) && s.runs.Keys == {0} && TallyOf(s.log, 0) == Tally(1, 0, 0, 1)
  {
    TakenTally(s.log);
  }

  lemma TakenTally(log: Log)
    requires log == [Insertion(0), Insertion(1)] + [Quiet, Quiet, Claim({0})] + [Quiet] + [Release({0})]
    ensures TallyOf(log, 0) == Tally(1, 0, 0, 1)
  {
    var l1: Log := [];
    TallyAfter(l1, Insertion(0), 0);
    var l2 := l1 + [Insertion(0)];
    TallyAfter(l2, Insertion(1), 0);
    var l3 := l2 + [Insertion(1)];
    TallyAfter(l3, Quiet, 0);
    var l4 := l3 + [Quiet];
    TallyAfter(l4, Quiet, 0);
    var l5 := l4 + [Quiet];
    TallyAfter(l5, Claim({0}), 0);
    var l6 := l5 + [Claim({0})];
    TallyAfter(l6, Quiet, 0);
    var l7 := l6 + [Quiet];
    TallyAfter(l7, Release({0}), 0);
    assert log == l7 + [Release({0})];
  }

  /** Event 0 has failed and event 1 still waits. */
  predicate FirstIsFailed(t: Table) {
    && t.Keys == {0, 1} && t[0].status.Failed? && t[0].event == USER_EVENT && t[0].createdAt == 0
    && t[1] == NewRow(USER_EVENT, 3, 0)
  }

  /** Another run claims the first event and marks it failed, because it has no handlers. */
  lemma FirstFailed(c: Config) returns (acts: seq<Action>)
    requires 0 < c.batchSize
    ensures Valid(c, acts) && |Exec(c, acts).log| == |acts|
    ensures var s := Exec(c, acts); StaleTicket(c, s) && FirstIsFailed(s.table) && s.runs.Keys == {0, 1}
  {
    var taken := FirstTaken(c);
    var s := Exec(c, taken);
    DueLater(s.table, s.clock);
    var claimed := ClaimAlone(c, taken, 1, 0);
    FailureIsLegal(s.table, s.clock, Fail("no handlers registered"));
    acts := DeliverAndMark(c, claimed, 1, NoHandlers, "", 0);
    FailedState(c, s, Exec(c, acts));
  }

  lemma FailedState(c: Config, s: State, s': State)
    requires StaleTicket(c, s) && TwoWaiting(s.table) && s.runs.Keys == {0}
    requires s'.clock == s.clock && s'.runs.Keys == {0, 1} && s'.runs[0] == s.runs[0]
    requires s'.table == Marked(Locked(s.table, {0}, s.clock, "w"), 0, Fail("no handlers registered"))
    requires s'.log == s.log + [Quiet, Quiet, Claim({0})]
      + [Delivery(0, NoHandlers), Marking(0, Fail("no handlers registered"))]
    ensures StaleTicket(c, s') && FirstIsFailed(s'.table)
  {
  }

  lemma DueLater(t: Table, now: Time)
    requires TwoWaiting(t) && 0 <= now
    ensures Due(t, 0, now) && Unblocked(t, 0)
  {
  }

  lemma FailureIsLegal(t: Table, now: Time, m: Mark)
    requires TwoWaiting(t) && m.Fail?
    ensures Legal(Marked(Locked(t, {0}, now, "w"), 0, m))
  {
  }

  lemma NextIsDue(t: Table, now: Time)
    requires FirstIsFailed(t) && 0 <= now
    ensures Due(t, 1, now) && Unblocked(t, 1) && SameUser(t[0], t[1]) && Precedes(t, 0, 1)
  {
  }

  /** Run p can deliver one event, and it is this one. */
  ghost predicate CanDeliver(s: State, p: RunId, id: EventId) {
    HasTodo(s, p) && Live(s, s.runs[p]) && s.runs[p].verdict.None? && s.runs[p].todo[0].id == id
  }

  /** The later event is claimed for the first time while the earlier one has failed; run 0 still holds its ticket. */
  lemma SecondClaimedAfterFailure(c: Config) returns (acts: seq<Action>)
    requires 0 < c.batchSize && c.stuckAfter < JOB_TIMEOUT
    ensures Valid(c, acts) && |acts| >= 3 && |Exec(c, acts).log| == |acts|
    ensures FirstClaims(c, acts, |acts| - 1, 0, 1) && SnapshotAt(c, acts, |acts| - 1, |acts| - 3)
    ensures forall m | |acts| - 3 <= m < |acts| :: !Exec(c, acts).log[m].Insertion?
    ensures var s := Exec(c, acts); HasFailed(s, 0) && CanDeliver(s, 0, 0) && CanDeliver(s, 2, 1)
  {
    var failed := FirstFailed(c);
    var s := Exec(c, failed);
    NextIsDue(s.table, s.clock);
    acts := ClaimAlone(c, failed, 2, 1);
    ClaimIsFirst(c, failed, acts, 2, 0, 1);
    BothCanDeliver(c, s, Exec(c, acts));
  }

  lemma BothCanDeliver(c: Config, s: State, s': State)
    requires c.stuckAfter < JOB_TIMEOUT && StaleTicket(c, s) && FirstIsFailed(s.table)
    requires s' == State(s.clock, Locked(s.table, {1}, s.clock, "w"),
                         s.runs[2 := Working("w", s.clock, s.clock, [TicketFor(s.table, 1)], None)],
                         s.log + [Quiet, Quiet, Claim({1})])
    ensures HasFailed(s', 0) && CanDeliver(s', 0, 0) && CanDeliver(s', 2, 1)
    ensures |s'.log| == |s.log| + 3 && forall m | |s.log| <= m < |s'.log| :: !s'.log[m].Insertion?
  {
  }

  lemma DeliverOnly(c: Config, acts: seq<Action>, p: RunId, id: EventId, v: Verdict) returns (acts': seq<Action>)
    requires Valid(c, acts) && CanDeliver(Exec(c, acts), p, id)
    ensures Valid(c, acts') && acts' == acts + [Deliver(p, v)]
    ensures Exec(c, acts').log == Exec(c, acts).log + [Delivery(id, v)]
    ensures forall q, x | q != p && CanDeliver(Exec(c, acts), q, x) :: CanDeliver(Exec(c, acts'), q, x)
  {
    Extend(c, acts, Deliver(p, v));
    acts' := acts + [Deliver(p, v)];
  }

  /** A run in which the reaper's early reset lets the earlier, failed event be delivered after the later one. */
  lemma EarlyResetBreaksFifo(c: Config) returns (acts: seq<Action>, longer: seq<Action>)
    requires 0 < c.batchSize && c.stuckAfter < JOB_TIMEOUT
    ensures Valid(c, acts) && |acts| >= 3 && FirstClaims(c, acts, |acts| - 1, 0, 1) && HasFailed(Exec(c, acts), 0)
    ensures Valid(c, longer) && acts <= longer && |longer| == |acts| + 2 == |Exec(c, longer).log|
    ensures FirstClaims(c, longer, |acts| - 1, 0, 1) && SnapshotAt(c, longer, |acts| - 1, |acts| - 3)
    ensures forall m | |acts| - 3 <= m < |longer| :: !Exec(c, longer).log[m].Insertion?
    ensures IsDelivery(Exec(c, longer).log[|acts|], 1) && IsDelivery(Exec(c, longer).log[|acts| + 1], 0)
  {
    acts := SecondClaimedAfterFailure(c);
    longer := DeliverOnly(c, acts, 2, 1, HandlersOk);
    longer := DeliverOnly(c, longer, 0, 0, HandlersOk);
    FirstClaimsExtends(c, acts, longer, |acts| - 1, 0, 1);
    SnapshotExtends(c, acts, longer, |acts| - 1, |acts| - 3);
  }

  lemma SnapshotExtends(c: Config, acts: seq<Action>, longer: seq<Action>, k: nat, b: nat)
    requires k < |acts| && Valid(c, acts[..k]) && acts[k].CommitClaim? && Enabled(c, Exec(c, acts[..k]), acts[k])
    requires SnapshotAt(c, acts, k, b) && acts <= longer
    ensures longer[..k] == acts[..k] && longer[k] == acts[k] && SnapshotAt(c, longer, k, b)
  {
    assert longer[..k] == acts[..k] && longer[..b] == acts[..b];
  }

  // ---------- what the threshold decides ----------

  /** PerUserFifo for one choice of run, claim, snapshot, events and deliveries. */
  ghost predicate Fifo(c: Config, acts: seq<Action>, k: nat, b: nat, e1: EventId, e2: EventId, i: nat, j: nat)
    requires Valid(c, acts)
  {
    && FirstClaims(c, acts, k, e1, e2) && SnapshotAt(c, acts, k, b) && i < |acts| && j < |acts| == |Exec(c, acts).log|
    && IsDelivery(Exec(c, acts).log[i], e2) && IsDelivery(Exec(c, acts).log[j], e1)
    && (forall m | b <= m < j :: Exec(c, acts).log[m] != Insertion(e1))
    ==> j < i
  }

  ghost predicate AlwaysFifo(c: Config) {
    forall acts, k, b, e1, e2, i, j | Valid(c, acts) :: Fifo(c, acts, k, b, e1, e2, i, j)
  }

  /** Per-user order, with no insertion in between, holds in every run exactly when the threshold covers the timeout. */
  lemma FifoIff(c: Config)
    requires 0 < c.batchSize
    ensures AlwaysFifo(c) <==> JOB_TIMEOUT <= c.stuckAfter
  {
    if JOB_TIMEOUT <= c.stuckAfter {
      forall acts, k, b, e1, e2, i, j | Valid(c, acts)
        ensures Fifo(c, acts, k, b, e1, e2, i, j)
      {
        FifoAt(c, acts, k, b, e1, e2, i, j);
      }
    } else {
      var acts, longer := EarlyResetBreaksFifo(c);
      var n := |acts|;
      assert !Fifo(c, longer, n - 1, n - 3, 0, 1, n, n + 1);
    }
  }

  lemma FifoAt(c: Config, acts: seq<Action>, k: nat, b: nat, e1: EventId, e2: EventId, i: nat, j: nat)
    requires SafeConfig(c) && Valid(c, acts)
    ensures Fifo(c, acts, k, b, e1, e2, i, j)
  {
    if FirstClaims(c, acts, k, e1, e2) && SnapshotAt(c, acts, k, b) && i < |acts| && j < |acts| == |Exec(c, acts).log|
      && IsDelivery(Exec(c, acts).log[i], e2) && IsDelivery(Exec(c, acts).log[j], e1)
      && (forall m | b <= m < j :: Exec(c, acts).log[m] != Insertion(e1))
    {
      PerUserFifo(c, acts, k, b, e1, e2, i, j);
    }
  }

  /** In every run, exactly the events that have failed can never be delivered again. */
  ghost predicate FailureIsFinal(c: Config) {
    forall acts, id | Valid(c, acts) ::
      (exists longer, j :: DeliversLater(c, acts, longer, j, id)) <==> !HasFailed(Exec(c, acts), id)
  }

  lemma FailureIsFinalIff(c: Config)
    requires 0 < c.batchSize
    ensures FailureIsFinal(c) <==> JOB_TIMEOUT <= c.stuckAfter
  {
    if JOB_TIMEOUT <= c.stuckAfter {
      forall acts, id | Valid(c, acts)
        ensures (exists longer, j :: DeliversLater(c, acts, longer, j, id)) <==> !HasFailed(Exec(c, acts), id)
      {
        DeliveredAgainIff(c, acts, id);
      }
    } else {
      var acts, longer := EarlyResetBreaksFifo(c);
      assert DeliversLater(c, acts, longer, |acts| + 1, 0);
    }
  }

  /** In every run, the failure of the earlier event is what makes the order of two events final. */
  ghost predicate FailureFixesOrder(c: Config) {
    forall acts, e1, e2 | Valid(c, acts) && acts != [] && FirstClaims(c, acts, |acts| - 1, e1, e2) ::
      AlwaysInOrder(c, acts, e1, e2) <==> HasFailed(Exec(c, acts), e1)
  }

  lemma FailureFixesOrderIff(c: Config)
    requires 0 < c.batchSize
    ensures FailureFixesOrder(c) <==> JOB_TIMEOUT <= c.stuckAfter
  {
    if JOB_TIMEOUT <= c.stuckAfter {
      FailureFixes(c);
    } else {
      FailureMayNotFix(c);
    }
  }

  lemma FailureFixes(c: Config)
    requires 0 < c.batchSize && SafeConfig(c)
    ensures FailureFixesOrder(c)
  {
    forall acts, e1, e2 | Valid(c, acts) && acts != [] && FirstClaims(c, acts, |acts| - 1, e1, e2)
      ensures AlwaysInOrder(c, acts, e1, e2) <==> HasFailed(Exec(c, acts), e1)
    {
      OrderIsFinalIff(c, acts, e1, e2);
    }
  }

  lemma FailureMayNotFix(c: Config)
    requires 0 < c.batchSize && c.stuckAfter < JOB_TIMEOUT
    ensures !FailureFixesOrder(c)
  {
    var acts, longer := EarlyResetBreaksFifo(c);
    NotInOrder(Exec(c, longer).log, 0, 1, |acts|);
    assert !AlwaysInOrder(c, acts, 0, 1);
  }

  lemma NotInOrder(log: Log, e1: EventId, e2: EventId, i: nat)
    requires i + 1 < |log| && IsDelivery(log[i], e2) && IsDelivery(log[i + 1], e1)
    ensures !InOrder(log, e1, e2)
  {
  }

  // ---------- accounting ----------

  /** A failing mark by a run whose row was taken back counts, but its claim was already paid by the release. */
  lemma EarlyResetBreaksAccounts(c: Config) returns (acts: seq<Action>)
    requires 0 < c.batchSize && c.stuckAfter < JOB_TIMEOUT
    ensures Valid(c, acts) && 0 in Exec(c, acts).table && !Accounts(Exec(c, acts), 0)
  {
    var taken := FirstTaken(c);
    var s := Exec(c, taken);
    RetryIsLegal(s.table, Retry("", s.clock));
    acts := DeliverAndMark(c, taken, 0, HandlersFailed, "", 0);
    AccountsBreak(s, Exec(c, acts), Retry("", s.clock));
  }

  lemma RetryIsLegal(t: Table, m: Mark)
    requires TwoWaiting(t) && m.Retry?
    ensures Legal(Marked(t, 0, m))
  {
  }

  lemma AccountsBreak(s: State, s': State, m: Mark)
    requires TwoWaiting(s.table) && TallyOf(s.log, 0) == Tally(1, 0, 0, 1) && m.Retry?
    requires s'.table == Marked(s.table, 0, m) && s'.log == s.log + [Delivery(0, HandlersFailed), Marking(0, m)]
    ensures 0 in s'.table && !Accounts(s', 0)
  {
    TallyAfter(s.log, Delivery(0, HandlersFailed), 0);
    TallyAfter(s.log + [Delivery(0, HandlersFailed)], Marking(0, m), 0);
    assert s.log + [Delivery(0, HandlersFailed)] + [Marking(0, m)] == s'.log;
  }

  ghost predicate AlwaysAccounts(c: Config) {
    forall acts, id | Valid(c, acts) && id in Exec(c, acts).table :: Accounts(Exec(c, acts), id)
  }

  /** The accounts are right in every run exactly when the threshold covers the timeout. */
  lemma AccountingIff(c: Config)
    requires 0 < c.batchSize
    ensures AlwaysAccounts(c) <==> JOB_TIMEOUT <= c.stuckAfter
  {
    if JOB_TIMEOUT <= c.stuckAfter {
      forall acts, id | Valid(c, acts) && id in Exec(c, acts).table
        ensures Accounts(Exec(c, acts), id)
      {
        AttemptAccounting(c, acts, id);
      }
    } else {
      var acts := EarlyResetBreaksAccounts(c);
    }
  }
}
