/**
 What the outbox guarantees over whole runs of the protocol.
 */
module OutboxSafety {
  import opened Wrappers
  import opened OutboxTable
  import opened OutboxHistory
  import opened OutboxProtocol

  // ---------- runs and their prefixes ----------

  lemma Extend(c: Config, acts: seq<Action>, a: Action)
    requires Valid(c, acts) && Enabled(c, Exec(c, acts), a)
    ensures Valid(c, acts + [a]) && Exec(c, acts + [a]) == Apply(c, Exec(c, acts), a)
  {
    var longer := acts + [a];
    assert |longer| == |acts| + 1 && longer[..|longer| - 1] == acts && longer[|longer| - 1] == a;
    assert Valid(c, longer);
    assert Exec(c, longer) == Apply(c, Exec(c, longer[..|longer| - 1]), longer[|longer| - 1]);
  }

  lemma OneEntry(c: Config, s: State, a: Action)
    requires Enabled(c, s, a)
    ensures |Apply(c, s, a).log| == |s.log| + 1 && Apply(c, s, a).log[..|s.log|] == s.log
  {
  }

  lemma {:induction false} PrefixValid(c: Config, acts: seq<Action>, k: nat)
    requires Valid(c, acts) && k <= |acts|
    ensures Valid(c, acts[..k])
  {
    if k < |acts| {
      PrefixValid(c, acts[..|acts| - 1], k);
      assert acts[..|acts| - 1][..k] == acts[..k];
    } else {
      assert acts[..k] == acts;
    }
  }

  lemma {:induction false} LogPrefix(c: Config, acts: seq<Action>, k: nat)
    requires Valid(c, acts) && k <= |acts|
    ensures |Exec(c, acts).log| == |acts|
    ensures Valid(c, acts[..k]) && Exec(c, acts).log[..k] == Exec(c, acts[..k]).log
  {
    PrefixValid(c, acts, k);
    var n := |acts| - 1;
    if k < |acts| {
      LogPrefix(c, acts[..n], k);
      assert acts[..n][..k] == acts[..k];
      OneEntry(c, Exec(c, acts[..n]), acts[n]);
      assert Exec(c, acts).log[..k] == Exec(c, acts).log[..n][..k];
    } else {
      assert acts[..k] == acts;
      if n >= 0 {
        LogPrefix(c, acts[..n], n);
        OneEntry(c, Exec(c, acts[..n]), acts[n]);
      }
    }
  }

  /** Entry k of the log is the one action k wrote. */
  lemma StepAt(c: Config, acts: seq<Action>, k: nat)
    requires Valid(c, acts) && k < |acts|
    ensures Valid(c, acts[..k]) && Enabled(c, Exec(c, acts[..k]), acts[k])
    ensures |Exec(c, acts).log| == |acts| && |Exec(c, acts[..k]).log| == k
    ensures Exec(c, acts).log[..k] == Exec(c, acts[..k]).log
    ensures |Apply(c, Exec(c, acts[..k]), acts[k]).log| == k + 1
    ensures Exec(c, acts).log[k] == Apply(c, Exec(c, acts[..k]), acts[k]).log[k]
    ensures Valid(c, acts[..k + 1]) && Exec(c, acts[..k + 1]) == Apply(c, Exec(c, acts[..k]), acts[k])
  {
    LogPrefix(c, acts, k);
    LogPrefix(c, acts[..k], k);
    LogPrefix(c, acts, k + 1);
    assert acts[..k + 1][..k] == acts[..k];
    OneEntry(c, Exec(c, acts[..k]), acts[k]);
    assert Exec(c, acts).log[k] == Exec(c, acts).log[..k + 1][k];
  }

  // ---------- lease safety ----------

  /** Every row a live run has still to mark is Processing under that run's own claim. */
  ghost predicate LeaseSafe(s: State) {
    forall p | p in s.runs && s.runs[p].Working? && Live(s, s.runs[p]) ::
      forall n | 0 <= n < |s.runs[p].todo| :: Holds(s.table, s.runs[p], s.runs[p].todo[n])
  }

  ghost predicate AlwaysLeaseSafe(c: Config) {
    forall acts | Valid(c, acts) :: LeaseSafe(Exec(c, acts))
  }

  /** The reaper's threshold decides it: leases are safe in every run exactly when it covers the job timeout. */
  lemma LeaseSafety(c: Config)
    requires 0 < c.batchSize
    ensures AlwaysLeaseSafe(c) <==> JOB_TIMEOUT <= c.stuckAfter
  {
    if JOB_TIMEOUT <= c.stuckAfter {
      forall acts | Valid(c, acts)
        ensures LeaseSafe(Exec(c, acts))
      {
        Reachable(c, acts);
        var s := Exec(c, acts);
        forall p | p in s.runs && s.runs[p].Working? && Live(s, s.runs[p])
          ensures forall n | 0 <= n < |s.runs[p].todo| :: Holds(s.table, s.runs[p], s.runs[p].todo[n])
        {
          assert RunInv(s, s.runs[p]);
        }
      }
    } else {
      var acts := LeaseTheft(c);
    }
  }

  /** With a shorter threshold the reaper takes a row away from a run that may still mark it. */
  lemma LeaseTheft(c: Config) returns (acts: seq<Action>)
    requires 0 < c.batchSize && c.stuckAfter < JOB_TIMEOUT
    ensures Valid(c, acts) && !LeaseSafe(Exec(c, acts))
  {
    var e := Event("t", None, "{}", 0);
    acts := [];
    Extend(c, acts, Insert(0, e, 1, 0));
    acts := acts + [Insert(0, e, 1, 0)];
    assert Exec(c, acts).table == map[0 := NewRow(e, 1, 0)];
    acts := ClaimAlone(c, acts, 0, 0);
    acts := StealAlone(c, acts, 0);
  }

  lemma Overwritten(runs: map<RunId, Run>, run: RunId, a: Run, b: Run)
    ensures runs[run := a][run := b] == runs[run := b]
  {
  }

  lemma Removed(runs: map<RunId, Run>, run: RunId, a: Run)
    requires run !in runs
    ensures runs[run := a] - {run} == runs
  {
  }

  /** A fresh run that has read its snapshot. */
  lemma SnapshotAlone(c: Config, acts: seq<Action>, run: RunId, owner: string)
    requires Valid(c, acts) && run !in Exec(c, acts).runs
    ensures Valid(c, acts + [StartRun(run, owner), BeginClaim(run)])
    ensures var s := Exec(c, acts);
      Exec(c, acts + [StartRun(run, owner), BeginClaim(run)])
      == State(s.clock, s.table, s.runs[run := Selecting(owner, s.clock, s.clock, s.table)], s.log + [Quiet, Quiet])
  {
    var s := Exec(c, acts);
    var acts1 := acts + [StartRun(run, owner)];
    Extend(c, acts, StartRun(run, owner));
    Extend(c, acts1, BeginClaim(run));
    assert acts1 + [BeginClaim(run)] == acts + [StartRun(run, owner), BeginClaim(run)];
    Overwritten(s.runs, run, Starting(owner, s.clock), Selecting(owner, s.clock, s.clock, s.table));
    assert s.log + [Quiet] + [Quiet] == s.log + [Quiet, Quiet];
  }

  /** A fresh run claims one row, whatever other runs are in flight. */
  lemma ClaimAlone(c: Config, acts: seq<Action>, run: RunId, id: EventId) returns (acts': seq<Action>)
    requires 0 < c.batchSize && Valid(c, acts) && run !in Exec(c, acts).runs
    requires var s := Exec(c, acts); Due(s.table, id, s.clock) && Unblocked(s.table, id)
    ensures Valid(c, acts')
    ensures acts' == acts + [StartRun(run, "w"), BeginClaim(run), CommitClaim(run, [id])]
    ensures var s := Exec(c, acts);
      Exec(c, acts') == State(s.clock, Locked(s.table, {id}, s.clock, "w"),
                              s.runs[run := Working("w", s.clock, s.clock, [TicketFor(s.table, id)], None)],
                              s.log + [Quiet, Quiet, Claim({id})])
  {
    var s := Exec(c, acts);
    OneInFlightPerUser(c, acts);
    SnapshotAlone(c, acts, run, "w");
    var acts2 := acts + [StartRun(run, "w"), BeginClaim(run)];
    FreshClaimIsNeverDeferred(s.table, s.clock, {id}, "w");
    assert IdSet([id]) == {id};
    Extend(c, acts2, CommitClaim(run, [id]));
    acts' := acts2 + [CommitClaim(run, [id])];
    CommittedAlone(s, run, id, Exec(c, acts2));
  }

  lemma CommittedAlone(s: State, run: RunId, id: EventId, s2: State)
    requires id in s.table && Legal(Locked(s.table, {id}, s.clock, "w"))
    requires s2 == State(s.clock, s.table, s.runs[run := Selecting("w", s.clock, s.clock, s.table)],
                         s.log + [Quiet, Quiet])
    ensures ApplyCommit(s2, run, [id]) ==
      State(s.clock, Locked(s.table, {id}, s.clock, "w"),
            s.runs[run := Working("w", s.clock, s.clock, [TicketFor(s.table, id)], None)],
            s.log + [Quiet, Quiet, Claim({id})])
  {
    assert IdSet([id]) == {id};
    assert Tickets(s.table, [id]) == [TicketFor(s.table, id)];
    Overwritten(s.runs, run, Selecting("w", s.clock, s.clock, s.table),
                Working("w", s.clock, s.clock, [TicketFor(s.table, id)], None));
    assert s.log + [Quiet, Quiet] + [Claim({id})] == s.log + [Quiet, Quiet, Claim({id})];
  }

  lemma StealAlone(c: Config, acts: seq<Action>, id: EventId) returns (acts': seq<Action>)
    requires Valid(c, acts) && c.stuckAfter < JOB_TIMEOUT
    requires var s := Exec(c, acts);
      && 0 in s.runs && s.runs[0].Working? && s.runs[0].start == s.clock && |s.runs[0].todo| == 1
      && s.runs[0].todo[0].id == id && id in s.table
      && s.table[id].status.Processing? && s.table[id].lockedAt == Some(s.clock)
    ensures Valid(c, acts') && !LeaseSafe(Exec(c, acts'))
  {
    var d := if c.stuckAfter < 0 then 0 else c.stuckAfter + 1;
    Extend(c, acts, Tick(d));
    Extend(c, acts + [Tick(d)], ResetStuck);
    acts' := acts + [Tick(d)] + [ResetStuck];
    var s := Exec(c, acts');
    assert s.table[id].status.Pending?;
    assert !Holds(s.table, s.runs[0], s.runs[0].todo[0]);
  }

  /**
   Although the mark statements look at the id alone, every mark of every run
   lands on a row Processing under the marking run's claim and is accepted, and
   it publishes exactly when all handlers of the delivery succeeded.
   */
  lemma MarksHitTheirOwnClaim(c: Config, acts: seq<Action>, run: RunId, err: string, backoff: int)
    requires SafeConfig(c) && Valid(c, acts)
    requires Enabled(c, Exec(c, acts), MarkHead(run, err, backoff))
    ensures var s := Exec(c, acts);
      var s' := Apply(c, s, MarkHead(run, err, backoff));
      var k := s.runs[run].todo[0];
      && Holds(s.table, s.runs[run], k)
      && k.id in s'.table
      && (s'.table[k.id].status.Published? <==> s.runs[run].verdict == Some(HandlersOk))
      && (s'.table[k.id].status.Pending? <==>
            s.runs[run].verdict == Some(HandlersFailed) && k.attempts + 1 < k.maxAttempts)
      && !s'.table[k.id].status.Processing?
      && s'.table[k.id].lockedBy == None && s'.table[k.id].lockedAt == None
      && s'.table[k.id].event == k.event && s'.table[k.id].maxAttempts == k.maxAttempts
      && s'.table[k.id].attempts == k.attempts + (if s.runs[run].verdict == Some(HandlersOk) then 0 else 1)
      && (s'.table[k.id].status.Pending? ==> s'.table[k.id].nextAttemptAt == s.clock + backoff)
      && (s'.table[k.id].status.Published? ==> s'.table[k.id].publishedAt == Some(s.clock))
      && s'.table[k.id].lastError == (match s.runs[run].verdict.value
                                      case HandlersOk => s.table[k.id].lastError
                                      case HandlersFailed => Some(err)
                                      case NoHandlers => Some("no handlers registered"))
      && (forall x | x in s.table && x != k.id :: x in s'.table && s'.table[x] == s.table[x])
  {
    var s := Exec(c, acts);
    Reachable(c, acts);
    assert RunInv(s, s.runs[run]);
    var k := s.runs[run].todo[0];
    MarkIsAccepted(s, run, MarkFor(k, s.runs[run].verdict.value, s.clock, err, backoff));
  }

  /** No lock lies in the future, and a held row was due when it was locked. */
  ghost predicate TimesInv(s: State) {
    && (forall id | id in s.table && s.table[id].status.Processing? ::
          s.table[id].lockedAt.Some? && s.table[id].nextAttemptAt <= s.table[id].lockedAt.value <= s.clock)
    && (forall p | p in s.runs && s.runs[p].Selecting? :: s.runs[p].claimNow <= s.clock)
  }

  lemma {:induction false} TimesHold(c: Config, acts: seq<Action>)
    requires Valid(c, acts)
    ensures TimesInv(Exec(c, acts))
  {
    if acts != [] {
      var n := |acts| - 1;
      TimesHold(c, acts[..n]);
      TimesStep(c, Exec(c, acts[..n]), acts[n]);
    }
  }

  lemma TimesStep(c: Config, s: State, a: Action)
    requires TimesInv(s) && Enabled(c, s, a)
    ensures TimesInv(Apply(c, s, a))
  {
    match a
    case CommitClaim(run, order) => TimesCommit(s, run, order);
    case MarkHead(run, err, backoff) => TimesMark(s, run, err, backoff);
    case _ =>
  }

  lemma TimesCommit(s: State, run: RunId, order: seq<EventId>)
    requires TimesInv(s) && run in s.runs && s.runs[run].Selecting?
    requires forall id | id in order :: id in s.table && Due(s.table, id, s.runs[run].claimNow)
    ensures TimesInv(ApplyCommit(s, run, order))
  {
  }

  lemma TimesMark(s: State, run: RunId, err: string, backoff: int)
    requires TimesInv(s) && HasTodo(s, run) && s.runs[run].verdict.Some?
    ensures TimesInv(ApplyMark(s, run, err, backoff))
  {
  }

  /**
   For every threshold: what the reaper frees is due again at once, with its
   attempts and its place in the order, and all other rows are as they were.
   */
  lemma ResetRowsAreDueAgain(c: Config, acts: seq<Action>, id: EventId)
    requires Valid(c, acts) && id in Exec(c, acts).table
    ensures var s := Exec(c, acts);
      var t := Apply(c, s, ResetStuck).table;
      if Stuck(s.table[id], s.clock, c.stuckAfter)
      then Due(t, id, s.clock) && t[id].lockedBy.None? && t[id].attempts == s.table[id].attempts
           && t[id].event == s.table[id].event && t[id].createdAt == s.table[id].createdAt
      else id in t && t[id] == s.table[id]
  {
    TimesHold(c, acts);
  }

  // ---------- one Processing row for each user, whatever the configuration ----------

  lemma {:induction false} OneInFlightPerUser(c: Config, acts: seq<Action>)
    requires Valid(c, acts)
    ensures Legal(Exec(c, acts).table)
    ensures var t := Exec(c, acts).table;
      && (forall id | id in t :: 0 <= t[id].attempts <= t[id].maxAttempts && 0 < t[id].maxAttempts)
      && (forall id | id in t :: t[id].status == Published <==> t[id].publishedAt.Some?)
      && forall a, b | a in t && b in t && a != b && t[a].status == Processing && t[b].status == Processing ::
           t[a].event.user.Some? ==> t[a].event.user != t[b].event.user
  {
    if acts == [] {
    } else {
      OneInFlightPerUser(c, acts[..|acts| - 1]);
      StepKeepsLegal(c, Exec(c, acts[..|acts| - 1]), acts[|acts| - 1]);
    }
  }

  lemma StepKeepsLegal(c: Config, s: State, a: Action)
    requires Legal(s.table) && Enabled(c, s, a)
    ensures Legal(Apply(c, s, a).table)
  {
    match a
    case ResetStuck =>
      var t := Apply(c, s, a).table;
      forall id | id in t
        ensures RowLegal(t[id])
      {
        assert RowLegal(s.table[id]);
      }
    case _ =>
  }

  /**
   A committed claim takes at most batchSize rows, all due and of different
   users; a claim that would break the unique index changes nothing.
   */
  lemma ClaimTakesOnePerUser(c: Config, s: State, run: RunId, order: seq<EventId>)
    requires Enabled(c, s, CommitClaim(run, order))
    ensures var s' := Apply(c, s, CommitClaim(run, order));
      var todo := s'.runs[run].todo;
      && |todo| <= c.batchSize
      && (forall k | k in todo :: k.id in s.runs[run].snap && Due(s.table, k.id, s.runs[run].claimNow))
      && (forall m, n | 0 <= m < n < |todo| && todo[m] in todo && todo[n] in todo ::
            !SameUser(s.runs[run].snap[todo[m].id], s.runs[run].snap[todo[n].id]))
      && (Legal(s'.table) || s'.table == s.table)
      && (todo == [] ==> order == [] || s'.table == s.table)
  {
    var r := s.runs[run];
    forall m, n | 0 <= m < n < |order|
      ensures order[m] in r.snap && order[n] in r.snap && !SameUser(r.snap[order[m]], r.snap[order[n]])
    {
      assert order[m] in order && order[n] in order;
      ClaimableUsersDiffer(r.snap, s.table, r.claimNow, order[m], order[n]);
    }
    forall k | k in Apply(c, s, CommitClaim(run, order)).runs[run].todo
      ensures k.id in r.snap && Due(s.table, k.id, r.claimNow)
    {
      assert k.id in order;
    }
  }

  /** The batch the claim query selects, in whatever order its rows come back, is a claim the protocol allows. */
  lemma BatchIsAllowed(c: Config, s: State, run: RunId, skip: set<EventId>, batch: seq<EventId>, order: seq<EventId>)
    requires run in s.runs && s.runs[run].Selecting?
    requires IsBatch(s.runs[run].snap, s.table, s.runs[run].claimNow, c.batchSize, skip, batch)
    requires multiset(order) == multiset(batch)
    ensures Enabled(c, s, CommitClaim(run, order))
  {
    assert |order| == |multiset(order)| == |batch|;
    assert forall id :: id in order <==> id in multiset(order);
    BatchIsDistinct(s.runs[run].snap, s.table, s.runs[run].claimNow, c.batchSize, skip, batch);
    DistinctByCount(batch, order);
  }

  lemma {:induction false} CountsOfDistinct(xs: seq<EventId>, id: EventId)
    requires Distinct(xs)
    ensures multiset(xs)[id] <= 1
  {
    if xs != [] {
      var init, last := xs[..|xs| - 1], xs[|xs| - 1];
      assert xs == init + [last];
      CountsOfDistinct(init, id);
      assert id == last ==> id !in init;
    }
  }

  lemma DistinctByCount(xs: seq<EventId>, ys: seq<EventId>)
    requires Distinct(xs) && multiset(xs) == multiset(ys)
    ensures Distinct(ys)
  {
    forall m, n | 0 <= m < n < |ys|
      ensures ys[m] != ys[n]
    {
      CountsOfDistinct(xs, ys[n]);
      assert ys == ys[..n] + [ys[n]] + ys[n + 1..];
      assert ys[m] == ys[..n][m] && ys[m] in ys[..n];
    }
  }

  // ---------- per-user order ----------

  predicate Finished(r: Row) {
    r.status.Published? || r.status.Failed?
  }

  /** An event that no run can deliver unless it is inserted again. */
  predicate Out(s: State, id: EventId) {
    id !in s.table || Finished(s.table[id])
  }

  lemma OutStays(c: Config, s: State, a: Action, id: EventId)
    requires Inv(s) && Enabled(c, s, a) && Out(s, id) && Apply(c, s, a).log != s.log + [Insertion(id)]
    ensures Out(Apply(c, s, a), id)
  {
    match a
    case MarkHead(run, err, backoff) =>
      assert RunInv(s, s.runs[run]);
      assert Holds(s.table, s.runs[run], s.runs[run].todo[0]);
    case CommitClaim(run, order) =>
      assert id !in IdSet(order);
    case _ =>
  }

  lemma {:induction false} OutUntilInserted(c: Config, acts: seq<Action>, b: nat, j: nat, id: EventId)
    requires SafeConfig(c) && Valid(c, acts) && b <= j <= |acts| && |Exec(c, acts).log| == |acts|
    requires Valid(c, acts[..b]) && Out(Exec(c, acts[..b]), id)
    requires forall m | b <= m < j :: Exec(c, acts).log[m] != Insertion(id)
    ensures Valid(c, acts[..j]) && Out(Exec(c, acts[..j]), id)
  {
    if b == j {
    } else {
      OutUntilInserted(c, acts, b, j - 1, id);
      StepAt(c, acts, j - 1);
      Reachable(c, acts[..j - 1]);
      OutStays(c, Exec(c, acts[..j - 1]), acts[j - 1], id);
    }
  }

  /** The snapshot of a run that is selecting is the table of an earlier moment. */
  lemma {:induction false} SnapshotWasTaken(c: Config, acts: seq<Action>, run: RunId) returns (b: nat)
    requires Valid(c, acts) && run in Exec(c, acts).runs && Exec(c, acts).runs[run].Selecting?
    ensures b < |acts| && Valid(c, acts[..b]) && Exec(c, acts[..b]).table == Exec(c, acts).runs[run].snap
  {
    var n := |acts| - 1;
    if acts[n] == BeginClaim(run) {
      b := n;
    } else {
      b := SnapshotWasTaken(c, acts[..n], run);
      assert acts[..n][..b] == acts[..b];
    }
  }

  /** None of the first n entries claims the event. */
  ghost predicate Unclaimed(log: Log, n: nat, id: EventId) {
    forall m | 0 <= m < n && m < |log| :: !(log[m].Claim? && id in log[m].ids)
  }

  /** Action k is the claim that first takes e2, and its snapshot holds the earlier event e1 of the same user. */
  ghost predicate FirstClaims(c: Config, acts: seq<Action>, k: nat, e1: EventId, e2: EventId)
    requires Valid(c, acts)
  {
    && k < |acts| && Valid(c, acts[..k]) && acts[k].CommitClaim? && e2 in acts[k].order
    && Enabled(c, Exec(c, acts[..k]), acts[k])
    && Unclaimed(Exec(c, acts).log, k, e2)
    && var snap := Exec(c, acts[..k]).runs[acts[k].run].snap;
       e1 in snap && SameUser(snap[e1], snap[e2]) && Precedes(snap, e1, e2)
  }

  /** The first b actions lead to the table the claim at k read as its snapshot. */
  ghost predicate SnapshotAt(c: Config, acts: seq<Action>, k: nat, b: nat)
    requires k < |acts| && Valid(c, acts[..k]) && acts[k].CommitClaim? && Enabled(c, Exec(c, acts[..k]), acts[k])
  {
    b <= k && Valid(c, acts[..b]) && Exec(c, acts[..b]).table == Exec(c, acts[..k]).runs[acts[k].run].snap
  }

  lemma SnapshotExists(c: Config, acts: seq<Action>, k: nat) returns (b: nat)
    requires k < |acts| && Valid(c, acts[..k]) && acts[k].CommitClaim? && Enabled(c, Exec(c, acts[..k]), acts[k])
    ensures SnapshotAt(c, acts, k, b)
  {
    b := SnapshotWasTaken(c, acts[..k], acts[k].run);
    assert acts[..k][..b] == acts[..b];
  }

  predicate IsDelivery(e: Entry, id: EventId) {
    e.Delivery? && e.id == id
  }

  /**
   Per-user FIFO: once e2 was claimed although the earlier e1 was visible, e1
   is delivered again only after it was inserted again; so with no insertion of
   e1 between the snapshot and a delivery of e1, this delivery precedes every
   delivery of e2, however long e1 waited out a back-off.
   */
  lemma PerUserFifo(c: Config, acts: seq<Action>, k: nat, b: nat, e1: EventId, e2: EventId, i: nat, j: nat)
    requires SafeConfig(c) && Valid(c, acts) && FirstClaims(c, acts, k, e1, e2) && SnapshotAt(c, acts, k, b)
    requires i < |acts| && j < |acts| && |Exec(c, acts).log| == |acts|
    requires IsDelivery(Exec(c, acts).log[i], e2) && IsDelivery(Exec(c, acts).log[j], e1)
    requires forall m | b <= m < j :: Exec(c, acts).log[m] != Insertion(e1)
    ensures j < i
  {
    DeliveredAfterFirstClaim(c, acts, k, e1, e2, i);
    if i <= j {
      OutAtSnapshot(c, acts, k, b, e1, e2);
      OutUntilInserted(c, acts, b, j, e1);
      DeliveredIsHeld(c, acts, j, e1);
    }
  }

  lemma DeliveredAfterFirstClaim(c: Config, acts: seq<Action>, k: nat, e1: EventId, e2: EventId, i: nat)
    requires SafeConfig(c) && Valid(c, acts) && FirstClaims(c, acts, k, e1, e2)
    requires i < |acts| && |Exec(c, acts).log| == |acts| && IsDelivery(Exec(c, acts).log[i], e2)
    ensures k < i
  {
    DeliveredIsHeld(c, acts, i, e2);
    var first := HeldWasClaimed(Exec(c, acts[..i]).log, e2);
    StepAt(c, acts, i);
    assert Exec(c, acts).log[first] == Exec(c, acts).log[..i][first];
  }

  lemma OutAtSnapshot(c: Config, acts: seq<Action>, k: nat, b: nat, e1: EventId, e2: EventId)
    requires Valid(c, acts) && FirstClaims(c, acts, k, e1, e2) && SnapshotAt(c, acts, k, b)
    ensures Out(Exec(c, acts[..b]), e1)
  {
    var s := Exec(c, acts[..k]);
    var r := s.runs[acts[k].run];
    assert Claimable(r.snap, s.table, r.claimNow, e2);
    assert SameUser(r.snap[e1], r.snap[e2]);
  }

  /** What is being delivered is Processing, and its history says it is held. */
  lemma DeliveredIsHeld(c: Config, acts: seq<Action>, j: nat, id: EventId)
    requires SafeConfig(c) && Valid(c, acts) && j < |acts| && |Exec(c, acts).log| == |acts|
    requires IsDelivery(Exec(c, acts).log[j], id)
    ensures Valid(c, acts[..j]) && id in Exec(c, acts[..j]).table && Exec(c, acts[..j]).table[id].status.Processing?
    ensures FateOf(Exec(c, acts[..j]).log, id).Held?
  {
    StepAt(c, acts, j);
    var s, a := Exec(c, acts[..j]), acts[j];
    Reachable(c, acts[..j]);
    assert a.Deliver?;
    assert RunInv(s, s.runs[a.run]);
    assert Holds(s.table, s.runs[a.run], s.runs[a.run].todo[0]);
  }

  // ---------- accounting ----------

  /** The account of one event in the table. */
  ghost predicate Accounts(s: State, id: EventId)
    requires id in s.table
  {
    var r, t := s.table[id], TallyOf(s.log, id);
    && r.attempts == t.fails <= r.maxAttempts
    && (!r.status.Failed? ==> r.attempts < r.maxAttempts)
    && t.claims == t.fails + t.releases + (if r.status.Processing? || r.status.Published? then 1 else 0)
    && t.deliveries <= t.claims <= r.maxAttempts + t.releases
    && (t.claims == r.maxAttempts + t.releases && !r.status.Processing? ==> Finished(r))
  }

  /**
   When the reaper waits at least the job timeout: attempts counts the failing
   marks since the insertion, never passes the maximum, and together with
   releases pays for every claim.  An event is claimed at most maxAttempts
   times plus once for each time the reaper freed it, delivered at most once
   for each claim, and once the claims are used up it is published or failed.
   */
  lemma AttemptAccounting(c: Config, acts: seq<Action>, id: EventId)
    requires SafeConfig(c) && Valid(c, acts) && id in Exec(c, acts).table
    ensures Accounts(Exec(c, acts), id)
  {
    var s := Exec(c, acts);
    Reachable(c, acts);
    assert RowInv(s.table[id]);
    assert Matches(FateOf(s.log, id), s.table, id);
    ClaimsAreConserved(s.log, id);
  }

  lemma PurgedWasExpired(c: Config, acts: seq<Action>, id: EventId, p: nat)
    requires Valid(c, acts) && p < |acts| && |Exec(c, acts).log| == |acts|
    requires Exec(c, acts).log[p].Purge? && id in Exec(c, acts).log[p].ids
    ensures Valid(c, acts[..p])
    ensures id in ExpiredIds(Exec(c, acts[..p]).table, Exec(c, acts[..p]).clock, c.retention)
  {
    StepAt(c, acts, p);
    assert acts[p].DeleteBatch?;
  }
}
