/**
 What can still happen: every reachable state has a continuation that publishes
 a given event, and exactly the failed events are never delivered again.
 */
module OutboxProgress {
  import opened Wrappers
  import opened OutboxTable
  import opened OutboxHistory
  import opened OutboxProtocol
  import opened OutboxSafety

  // ---------- one fresh run serves one event ----------

  /** Any due and unblocked event can be claimed, delivered and published by a fresh run, whatever else is in flight. */
  lemma ServeOne(c: Config, acts: seq<Action>, run: RunId, id: EventId) returns (acts': seq<Action>)
    requires 0 < c.batchSize && Valid(c, acts) && run !in Exec(c, acts).runs
    requires var s := Exec(c, acts); Due(s.table, id, s.clock) && Unblocked(s.table, id)
    ensures Valid(c, acts')
    ensures acts' == acts + [StartRun(run, "w"), BeginClaim(run), CommitClaim(run, [id]),
                             Deliver(run, HandlersOk), MarkHead(run, "", 0), EndRun(run)]
    ensures var s := Exec(c, acts);
      Exec(c, acts') == State(s.clock, Marked(s.table, id, Publish(s.clock)), s.runs,
                              s.log + [Quiet, Quiet, Claim({id}), Delivery(id, HandlersOk),
                                       Marking(id, Publish(s.clock)), Quiet])
  {
    var s := Exec(c, acts);
    OneInFlightPerUser(c, acts);
    var claimed := ClaimAlone(c, acts, run, id);
    acts' := FinishAlone(c, claimed, run, id, s.table, s.runs);
    assert acts' == acts + [StartRun(run, "w"), BeginClaim(run), CommitClaim(run, [id]),
                            Deliver(run, HandlersOk), MarkHead(run, "", 0), EndRun(run)];
    assert Exec(c, acts').log == s.log + [Quiet, Quiet, Claim({id}), Delivery(id, HandlersOk),
                                          Marking(id, Publish(s.clock)), Quiet];
  }

  /** A run delivers and marks its next row. */
  lemma DeliverAndMark(c: Config, acts: seq<Action>, run: RunId, v: Verdict, err: string, backoff: int)
    returns (acts': seq<Action>)
    requires Valid(c, acts) && HasTodo(Exec(c, acts), run)
    requires var s := Exec(c, acts);
      && Live(s, s.runs[run]) && s.runs[run].verdict.None?
      && Legal(Marked(s.table, s.runs[run].todo[0].id, MarkFor(s.runs[run].todo[0], v, s.clock, err, backoff)))
    ensures Valid(c, acts') && acts' == acts + [Deliver(run, v), MarkHead(run, err, backoff)]
    ensures var s := Exec(c, acts);
      var k := s.runs[run].todo[0];
      var m := MarkFor(k, v, s.clock, err, backoff);
      Exec(c, acts') == State(s.clock, Marked(s.table, k.id, m), Advance(s, run),
                              s.log + [Delivery(k.id, v), Marking(k.id, m)])
  {
    var s := Exec(c, acts);
    var r := s.runs[run];
    Extend(c, acts, Deliver(run, v));
    var acts1 := acts + [Deliver(run, v)];
    assert Exec(c, acts1).runs == s.runs[run := r.(verdict := Some(v))];
    Extend(c, acts1, MarkHead(run, err, backoff));
    acts' := acts1 + [MarkHead(run, err, backoff)];
    MarkedState(s, run, v, err, backoff, Exec(c, acts1), Exec(c, acts'));
  }

  lemma MarkedState(s: State, run: RunId, v: Verdict, err: string, backoff: int, s1: State, s2: State)
    requires HasTodo(s, run) && s1 == Log1(s, Delivery(s.runs[run].todo[0].id, v)).(
      runs := s.runs[run := s.runs[run].(verdict := Some(v))])
    requires s2 == ApplyMark(s1, run, err, backoff)
    requires Legal(Marked(s.table, s.runs[run].todo[0].id, MarkFor(s.runs[run].todo[0], v, s.clock, err, backoff)))
    ensures var k := s.runs[run].todo[0];
      var m := MarkFor(k, v, s.clock, err, backoff);
      s2 == State(s.clock, Marked(s.table, k.id, m), Advance(s, run), s.log + [Delivery(k.id, v), Marking(k.id, m)])
  {
    assert s2.runs == Advance(s, run);
    var k := s.runs[run].todo[0];
    assert s.log + [Delivery(k.id, v)] + [Marking(k.id, MarkFor(k, v, s.clock, err, backoff))]
        == s.log + [Delivery(k.id, v), Marking(k.id, MarkFor(k, v, s.clock, err, backoff))];
  }

  lemma FinishAlone(c: Config, acts: seq<Action>, run: RunId, id: EventId, t: Table, others: map<RunId, Run>)
    returns (acts': seq<Action>)
    requires Valid(c, acts) && Legal(t) && id in t && run !in others
    requires var s := Exec(c, acts);
      && s.table == Locked(t, {id}, s.clock, "w")
      && s.runs == others[run := Working("w", s.clock, s.clock, [TicketFor(t, id)], None)]
    ensures Valid(c, acts') && acts' == acts + [Deliver(run, HandlersOk), MarkHead(run, "", 0), EndRun(run)]
    ensures var s := Exec(c, acts);
      Exec(c, acts') == State(s.clock, Marked(t, id, Publish(s.clock)), others,
                              s.log + [Delivery(id, HandlersOk), Marking(id, Publish(s.clock)), Quiet])
  {
    var s := Exec(c, acts);
    assert Marked(s.table, id, Publish(s.clock)) == Marked(t, id, Publish(s.clock));
    PublishKeepsLegal(t, id, s.clock);
    assert s.runs[run].todo[0] == TicketFor(t, id);
    var acts2 := DeliverAndMark(c, acts, run, HandlersOk, "", 0);
    Extend(c, acts2, EndRun(run));
    acts' := acts2 + [EndRun(run)];
    assert Exec(c, acts').runs == others;
    assert Exec(c, acts').log == s.log + [Delivery(id, HandlersOk), Marking(id, Publish(s.clock)), Quiet];
  }

  lemma PublishKeepsLegal(t: Table, id: EventId, now: Time)
    requires Legal(t) && id in t
    ensures Legal(Marked(t, id, Publish(now)))
  {
    assert RowLegal(t[id]);
  }

  // ---------- waiting until nothing is held and everything pending is due ----------

  predicate Passed(c: Config, r: Row, now: Time) {
    && r.nextAttemptAt <= now
    && (r.lockedAt.Some? ==> r.lockedAt.value < now - c.stuckAfter)
    && (r.publishedAt.Some? ==> r.publishedAt.value < now - c.retention)
  }

  lemma LateEnoughFor(c: Config, r: Row, now: Time) returns (late: Time)
    ensures now <= late && Passed(c, r, late)
  {
    late := if now < r.nextAttemptAt then r.nextAttemptAt else now;
    if r.lockedAt.Some? && late <= r.lockedAt.value + c.stuckAfter {
      late := r.lockedAt.value + c.stuckAfter + 1;
    }
    if r.publishedAt.Some? && late <= r.publishedAt.value + c.retention {
      late := r.publishedAt.value + c.retention + 1;
    }
  }

  lemma {:induction false} LateEnough(c: Config, t: Table, now: Time) returns (late: Time)
    ensures now <= late && forall id | id in t :: Passed(c, t[id], late)
    decreases t.Keys
  {
    late := now;
    if t.Keys != {} {
      var id :| id in t.Keys;
      var before := LateEnough(c, t - {id}, now);
      late := LateEnoughFor(c, t[id], before);
      forall other | other in t && other != id
        ensures Passed(c, t[other], late)
      {
        assert other in t - {id} && Passed(c, (t - {id})[other], before);
      }
    }
  }

  /** Nothing is held, and everything pending is due. */
  predicate Idle(s: State) {
    forall id | id in s.table ::
      !s.table[id].status.Processing? && (s.table[id].status.Pending? ==> s.table[id].nextAttemptAt <= s.clock)
  }

  /** What a continuation without failing marks may do: no row is lost, becomes failed, or is unpublished. */
  predicate Onward(before: Table, after: Table) {
    && before.Keys == after.Keys
    && forall id | id in before ::
         && (after[id].status.Failed? <==> before[id].status.Failed?)
         && (before[id].status.Published? ==> after[id] == before[id])
  }

  /** Waiting and one pass of the reaper free every row that is held. */
  lemma WaitAndReset(c: Config, acts: seq<Action>) returns (acts': seq<Action>)
    requires Valid(c, acts)
    ensures Valid(c, acts') && |acts'| == |acts| + 2 && acts <= acts'
    ensures var s, s' := Exec(c, acts), Exec(c, acts');
      && Idle(s') && Onward(s.table, s'.table)
      && forall id | id in s'.table ::
           Passed(c, s'.table[id], s'.clock) && (s'.table[id].status.Published? ==> s.table[id].status.Published?)
  {
    var s := Exec(c, acts);
    TimesHold(c, acts);
    var late := LateEnough(c, s.table, s.clock);
    Extend(c, acts, Tick(late - s.clock));
    var acts1 := acts + [Tick(late - s.clock)];
    Extend(c, acts1, ResetStuck);
    acts' := acts1 + [ResetStuck];
    assert forall id | id in s.table :: Passed(c, s.table[id], late);
  }

  // ---------- serving the user's events in order ----------

  function Earlier(t: Table, id: EventId): set<EventId>
    requires id in t
  {
    set e | e in t && Precedes(t, e, id)
  }

  /** The event itself or one that blocks it can be claimed. */
  lemma {:induction false} FirstInLine(s: State, id: EventId) returns (first: EventId)
    requires Idle(s) && id in s.table && s.table[id].status.Pending?
    ensures first in s.table && Due(s.table, first, s.clock) && Unblocked(s.table, first)
    decreases Earlier(s.table, id)
  {
    if Unblocked(s.table, id) {
      first := id;
    } else {
      var e :| e in s.table && SameUser(s.table[e], s.table[id])
        && s.table[e].status.Pending? && Precedes(s.table, e, id);
      PrecedesTotal(s.table, e, id);
      assert e in Earlier(s.table, id) && e !in Earlier(s.table, e);
      first := FirstInLine(s, e);
    }
  }

  function PendingIds(t: Table): set<EventId> {
    set id | id in t && t[id].status.Pending?
  }

  /** Serving one pending event after the other gets to any of them. */
  lemma {:induction false} ServeInOrder(c: Config, acts: seq<Action>, id: EventId) returns (acts': seq<Action>, j: nat)
    requires 0 < c.batchSize && Valid(c, acts) && Idle(Exec(c, acts))
    requires id in Exec(c, acts).table && Exec(c, acts).table[id].status.Pending?
    ensures Valid(c, acts') && acts <= acts' && Onward(Exec(c, acts).table, Exec(c, acts').table)
    ensures Exec(c, acts').table[id].status.Published?
    ensures |acts| <= j < |acts'| == |Exec(c, acts').log| && Exec(c, acts').log[j] == Delivery(id, HandlersOk)
    decreases PendingIds(Exec(c, acts).table)
  {
    var s := Exec(c, acts);
    var first := FirstInLine(s, id);
    var run := AboveAll(s.runs.Keys);
    acts' := ServeOne(c, acts, run, first);
    LogPrefix(c, acts, |acts|);
    LogPrefix(c, acts', |acts'|);
    j := |acts| + 3;
    if first != id {
      ServedIsOnward(s, first);
      acts', j := ServeInOrder(c, acts', id);
    }
  }

  lemma ServedIsOnward(s: State, first: EventId)
    requires Idle(s) && first in s.table && s.table[first].status.Pending?
    ensures var t := Marked(s.table, first, Publish(s.clock));
      && Onward(s.table, t) && PendingIds(t) < PendingIds(s.table) && Idle(s.(table := t))
  {
    assert first in PendingIds(s.table) && first !in PendingIds(Marked(s.table, first, Publish(s.clock)));
  }

  /** From every reachable state, every event that is waiting or held can still be delivered and published. */
  lemma EventCanBePublished(c: Config, acts: seq<Action>, id: EventId) returns (acts': seq<Action>, j: nat)
    requires 0 < c.batchSize && Valid(c, acts) && id in Exec(c, acts).table
    requires Exec(c, acts).table[id].status.Pending? || Exec(c, acts).table[id].status.Processing?
    ensures Valid(c, acts') && acts <= acts' && Onward(Exec(c, acts).table, Exec(c, acts').table)
    ensures Exec(c, acts').table[id].status.Published?
    ensures |acts| <= j < |acts'| == |Exec(c, acts').log| && Exec(c, acts').log[j] == Delivery(id, HandlersOk)
  {
    acts' := WaitAndReset(c, acts);
    acts', j := ServeInOrder(c, acts', id);
  }

  // ---------- which events can be delivered again ----------

  /** An event that is gone, or published and past the retention, can be inserted (again). */
  lemma InsertAgain(c: Config, acts: seq<Action>, id: EventId, e: Event) returns (acts': seq<Action>)
    requires Valid(c, acts) && id !in Exec(c, acts).table
    ensures Valid(c, acts') && acts <= acts' && id in Exec(c, acts').table && Exec(c, acts').table[id].status.Pending?
  {
    var s := Exec(c, acts);
    OneInFlightPerUser(c, acts);
    Extend(c, acts, Insert(id, e, 1, s.clock));
    acts' := acts + [Insert(id, e, 1, s.clock)];
    assert Legal(s.table[id := NewRow(e, 1, s.clock)]);
  }

  lemma PurgePublished(c: Config, acts: seq<Action>, id: EventId) returns (acts': seq<Action>)
    requires Valid(c, acts) && id in Exec(c, acts).table && Exec(c, acts).table[id].status.Published?
    ensures Valid(c, acts') && acts <= acts' && id !in Exec(c, acts').table
  {
    var waited := WaitAndReset(c, acts);
    var s := Exec(c, waited);
    OneInFlightPerUser(c, waited);
    assert RowLegal(s.table[id]) && Passed(c, s.table[id], s.clock);
    Extend(c, waited, DeleteBatch({id}));
    acts' := waited + [DeleteBatch({id})];
  }

  lemma EventCanBeDelivered(c: Config, acts: seq<Action>, id: EventId, e: Event) returns (acts': seq<Action>, j: nat)
    requires 0 < c.batchSize && Valid(c, acts)
    requires !HasFailed(Exec(c, acts), id)
    ensures Valid(c, acts') && acts <= acts'
    ensures |acts| <= j < |acts'| == |Exec(c, acts').log| && Exec(c, acts').log[j] == Delivery(id, HandlersOk)
  {
    acts' := acts;
    if id in Exec(c, acts').table && Exec(c, acts').table[id].status.Published? {
      acts' := PurgePublished(c, acts', id);
    }
    if id !in Exec(c, acts').table {
      acts' := InsertAgain(c, acts', id, e);
    }
    acts', j := EventCanBePublished(c, acts', id);
  }

  predicate HasFailed(s: State, id: EventId) {
    id in s.table && s.table[id].status.Failed?
  }

  lemma FailedStays(c: Config, s: State, a: Action, id: EventId)
    requires Inv(s) && Enabled(c, s, a) && HasFailed(s, id)
    ensures HasFailed(Apply(c, s, a), id)
  {
    match a
    case MarkHead(run, err, backoff) =>
      assert RunInv(s, s.runs[run]);
      assert Holds(s.table, s.runs[run], s.runs[run].todo[0]);
    case CommitClaim(run, order) =>
      assert id !in IdSet(order);
    case _ =>
  }

  lemma FailedNext(c: Config, acts: seq<Action>, j: nat, id: EventId, s: State)
    requires SafeConfig(c) && Valid(c, acts) && j < |acts|
    requires Valid(c, acts[..j]) && s == Exec(c, acts[..j]) && HasFailed(s, id)
    ensures Valid(c, acts[..j + 1]) && HasFailed(Exec(c, acts[..j + 1]), id)
  {
    StepAt(c, acts, j);
    Reachable(c, acts[..j]);
    FailedStays(c, s, acts[j], id);
  }

  lemma {:induction false} FailedForever(c: Config, acts: seq<Action>, k: nat, j: nat, id: EventId)
    requires SafeConfig(c) && Valid(c, acts) && k <= j <= |acts|
    requires Valid(c, acts[..k]) && HasFailed(Exec(c, acts[..k]), id)
    ensures Valid(c, acts[..j]) && HasFailed(Exec(c, acts[..j]), id)
  {
    if k < j {
      FailedForever(c, acts, k, j - 1, id);
      FailedNext(c, acts, j - 1, id, Exec(c, acts[..j - 1]));
    }
  }

  lemma FailedIsNeverDelivered(c: Config, acts: seq<Action>, k: nat, j: nat, id: EventId)
    requires SafeConfig(c) && Valid(c, acts) && k <= j < |acts| && |Exec(c, acts).log| == |acts|
    requires Valid(c, acts[..k]) && HasFailed(Exec(c, acts[..k]), id)
    ensures !IsDelivery(Exec(c, acts).log[j], id)
  {
    FailedForever(c, acts, k, j, id);
    if IsDelivery(Exec(c, acts).log[j], id) {
      DeliveredIsHeld(c, acts, j, id);
    }
  }

  ghost predicate DeliversLater(c: Config, acts: seq<Action>, longer: seq<Action>, j: nat, id: EventId) {
    && Valid(c, longer) && acts <= longer
    && |acts| <= j < |longer| == |Exec(c, longer).log| && IsDelivery(Exec(c, longer).log[j], id)
  }

  /** At every reachable state, an event can still be delivered at some later time exactly when it has not failed. */
  lemma DeliveredAgainIff(c: Config, acts: seq<Action>, id: EventId)
    requires SafeConfig(c) && 0 < c.batchSize && Valid(c, acts)
    ensures (exists longer, j :: DeliversLater(c, acts, longer, j, id))
       <==> !HasFailed(Exec(c, acts), id)
  {
    if HasFailed(Exec(c, acts), id) {
      forall longer, j | DeliversLater(c, acts, longer, j, id)
        ensures false
      {
        assert longer[..|acts|] == acts;
        FailedIsNeverDelivered(c, longer, |acts|, j, id);
      }
    } else {
      var longer, j := EventCanBeDelivered(c, acts, id, Event("t", None, "{}", 0));
      assert DeliversLater(c, acts, longer, j, id);
    }
  }

  // ---------- when the order of two events is final ----------

  /** Every delivery of e1 precedes every delivery of e2. */
  ghost predicate InOrder(log: Log, e1: EventId, e2: EventId) {
    forall i, j | 0 <= i < |log| && 0 <= j < |log| && IsDelivery(log[i], e2) && IsDelivery(log[j], e1) :: j < i
  }

  /** The order holds in every continuation. */
  ghost predicate AlwaysInOrder(c: Config, acts: seq<Action>, e1: EventId, e2: EventId) {
    forall longer | Valid(c, longer) && acts <= longer :: InOrder(Exec(c, longer).log, e1, e2)
  }

  /** FirstClaims looks only at the actions up to the claim. */
  lemma FirstClaimsExtends(c: Config, acts: seq<Action>, longer: seq<Action>, k: nat, e1: EventId, e2: EventId)
    requires Valid(c, acts) && FirstClaims(c, acts, k, e1, e2) && Valid(c, longer) && acts <= longer
    ensures FirstClaims(c, longer, k, e1, e2)
  {
    assert longer[..k] == acts[..k];
    LogPrefix(c, longer, |longer|);
    LogPrefix(c, acts, |acts|);
    forall m | 0 <= m < k
      ensures Exec(c, longer).log[m] == Exec(c, acts).log[m]
    {
      EntryStays(c, acts, longer, m);
    }
  }

  /** Just after its first claim the later event is waiting or held. */
  lemma ClaimedIsOpen(c: Config, acts: seq<Action>, e1: EventId, e2: EventId)
    requires Valid(c, acts) && acts != [] && FirstClaims(c, acts, |acts| - 1, e1, e2)
    ensures e2 in Exec(c, acts).table
    ensures Exec(c, acts).table[e2].status.Pending? || Exec(c, acts).table[e2].status.Processing?
  {
    var k := |acts| - 1;
    var s := Exec(c, acts[..k]);
    assert Claimable(s.runs[acts[k].run].snap, s.table, s.runs[acts[k].run].claimNow, e2);
  }

  lemma FailedFirstIsInOrder(c: Config, acts: seq<Action>, longer: seq<Action>, e1: EventId, e2: EventId)
    requires SafeConfig(c) && Valid(c, acts) && acts != [] && FirstClaims(c, acts, |acts| - 1, e1, e2)
    requires HasFailed(Exec(c, acts), e1)
    requires Valid(c, longer) && acts <= longer
    ensures InOrder(Exec(c, longer).log, e1, e2)
  {
    assert longer[..|acts|] == acts;
    LogPrefix(c, longer, |longer|);
    FirstClaimsExtends(c, acts, longer, |acts| - 1, e1, e2);
    var log := Exec(c, longer).log;
    forall i, j | 0 <= i < |log| && 0 <= j < |log| && IsDelivery(log[i], e2) && IsDelivery(log[j], e1)
      ensures j < i
    {
      DeliveredAfterFirstClaim(c, longer, |acts| - 1, e1, e2, i);
      if |acts| <= j {
        FailedIsNeverDelivered(c, longer, |acts|, j, e1);
      }
      if j == |acts| - 1 {
        ClaimIsNoDelivery(c, longer, j);
      }
    }
  }

  lemma ClaimIsNoDelivery(c: Config, acts: seq<Action>, k: nat)
    requires Valid(c, acts) && k < |acts| && acts[k].CommitClaim? && |Exec(c, acts).log| == |acts|
    ensures !Exec(c, acts).log[k].Delivery?
  {
    StepAt(c, acts, k);
  }

  /** Two deliveries in the wrong order: the later event first, then the earlier one once more. */
  lemma OrderCanBreak(c: Config, acts: seq<Action>, e1: EventId, e2: EventId)
    returns (longer: seq<Action>, i: nat, j: nat)
    requires 0 < c.batchSize && Valid(c, acts) && acts != [] && FirstClaims(c, acts, |acts| - 1, e1, e2)
    requires !HasFailed(Exec(c, acts), e1)
    ensures Valid(c, longer) && acts <= longer && i < j < |longer| == |Exec(c, longer).log|
    ensures Exec(c, longer).log[i] == Delivery(e2, HandlersOk) && Exec(c, longer).log[j] == Delivery(e1, HandlersOk)
  {
    ClaimedIsOpen(c, acts, e1, e2);
    var n := |acts| - 1;
    longer, i, j := ServeBoth(c, acts, e1, e2, Exec(c, acts[..n]).runs[acts[n].run].snap[e1].event);
  }

  /** The open event e2 is delivered, and after it e1, inserted again if need be. */
  lemma ServeBoth(c: Config, acts: seq<Action>, e1: EventId, e2: EventId, again: Event)
    returns (longer: seq<Action>, i: nat, j: nat)
    requires 0 < c.batchSize && Valid(c, acts) && !HasFailed(Exec(c, acts), e1) && e2 in Exec(c, acts).table
    requires Exec(c, acts).table[e2].status.Pending? || Exec(c, acts).table[e2].status.Processing?
    ensures Valid(c, longer) && acts <= longer && i < j < |longer| == |Exec(c, longer).log|
    ensures Exec(c, longer).log[i] == Delivery(e2, HandlersOk) && Exec(c, longer).log[j] == Delivery(e1, HandlersOk)
  {
    var served;
    served, i := EventCanBePublished(c, acts, e2);
    longer, j := EventCanBeDelivered(c, served, e1, again);
    EntryStays(c, served, longer, i);
  }

  lemma EntryStays(c: Config, acts: seq<Action>, longer: seq<Action>, i: nat)
    requires Valid(c, acts) && Valid(c, longer) && acts <= longer && i < |acts|
    ensures |Exec(c, acts).log| == |acts| && |Exec(c, longer).log| == |longer|
    ensures Exec(c, longer).log[i] == Exec(c, acts).log[i]
  {
    assert longer[..|acts|] == acts;
    LogPrefix(c, longer, |acts|);
    LogPrefix(c, acts, |acts|);
    assert Exec(c, longer).log[i] == Exec(c, longer).log[..|acts|][i];
  }

  /**
   When e2 is claimed for the first time while the earlier e1 of its user is
   visible, their order is final, in every continuation, exactly when e1 has
   failed; a published e1 can be purged, inserted again and delivered late.
   */
  lemma OrderIsFinalIff(c: Config, acts: seq<Action>, e1: EventId, e2: EventId)
    requires SafeConfig(c) && 0 < c.batchSize && Valid(c, acts)
    requires acts != [] && FirstClaims(c, acts, |acts| - 1, e1, e2)
    ensures AlwaysInOrder(c, acts, e1, e2) <==> HasFailed(Exec(c, acts), e1)
  {
    if HasFailed(Exec(c, acts), e1) {
      forall longer | Valid(c, longer) && acts <= longer
        ensures InOrder(Exec(c, longer).log, e1, e2)
      {
        FailedFirstIsInOrder(c, acts, longer, e1, e2);
      }
    } else {
      var longer, i, j := OrderCanBreak(c, acts, e1, e2);
      assert !InOrder(Exec(c, longer).log, e1, e2);
    }
  }

  // ---------- a run in which the order breaks ----------

  const USER_EVENT := Event("t", Some(7), "{}", 0)

  predicate TwoWaiting(t: Table) {
    t.Keys == {0, 1} && t[0] == NewRow(USER_EVENT, 3, 0) && t[1] == NewRow(USER_EVENT, 3, 0)
  }

  lemma TwoInserts(c: Config) returns (acts: seq<Action>)
    ensures Valid(c, acts) && |acts| == 2
    ensures var s := Exec(c, acts);
      s.clock == 0 && s.runs == map[] && TwoWaiting(s.table) && s.log == [Insertion(0), Insertion(1)]
  {
    var a0, a1 := Insert(0, USER_EVENT, 3, 0), Insert(1, USER_EVENT, 3, 0);
    Extend(c, [], a0);
    assert [] + [a0] == [a0];
    assert Exec(c, [a0]).table == map[0 := NewRow(USER_EVENT, 3, 0)];
    Extend(c, [a0], a1);
    acts := [a0] + [a1];
  }

  /** The earlier of the two can be served, then the later. */
  lemma ServingOrder(t: Table, t1: Table)
    requires TwoWaiting(t) && t1 == Marked(t, 0, Publish(0))
    ensures Due(t, 0, 0) && Unblocked(t, 0)
    ensures Due(t1, 1, 0) && Unblocked(t1, 1) && SameUser(t1[0], t1[1]) && Precedes(t1, 0, 1)
  {
  }

  lemma FirstServed(c: Config) returns (acts: seq<Action>, t: Table)
    requires 0 < c.batchSize
    ensures Valid(c, acts) && |Exec(c, acts).log| == |acts|
    ensures var s := Exec(c, acts);
      && s.clock == 0 && s.runs == map[] && Unclaimed(s.log, |s.log|, 1)
      && TwoWaiting(t) && s.table == Marked(t, 0, Publish(0))
  {
    var start := TwoInserts(c);
    t := Exec(c, start).table;
    ServingOrder(t, Marked(t, 0, Publish(0)));
    acts := ServeOne(c, start, 0, 0);
  }

  /** A fresh run's claim of an event nobody claimed before is its first claim. */
  lemma ClaimIsFirst(c: Config, before: seq<Action>, acts: seq<Action>, run: RunId, e1: EventId, e2: EventId)
    requires Valid(c, before) && |Exec(c, before).log| == |before| && run !in Exec(c, before).runs
    requires Valid(c, acts) && acts == before + [StartRun(run, "w"), BeginClaim(run), CommitClaim(run, [e2])]
    requires Exec(c, acts).log == Exec(c, before).log + [Quiet, Quiet, Claim({e2})]
    requires var s := Exec(c, before);
      && Unclaimed(s.log, |s.log|, e2) && e1 in s.table && e2 in s.table
      && SameUser(s.table[e1], s.table[e2]) && Precedes(s.table, e1, e2)
    ensures FirstClaims(c, acts, |before| + 2, e1, e2) && SnapshotAt(c, acts, |before| + 2, |before|)
  {
    var n := |before|;
    SnapshotAlone(c, before, run, "w");
    assert acts[..n] == before && acts[..n + 2] == before + [StartRun(run, "w"), BeginClaim(run)];
    QuietIsNoClaim(Exec(c, before).log, Exec(c, acts).log, e2);
    StepAt(c, acts, n + 2);
  }

  lemma SecondClaimed(c: Config) returns (acts: seq<Action>)
    requires 0 < c.batchSize
    ensures Valid(c, acts) && acts != [] && FirstClaims(c, acts, |acts| - 1, 0, 1)
    ensures 0 in Exec(c, acts).table && Exec(c, acts).table[0].status.Published?
  {
    var first, t := FirstServed(c);
    ServingOrder(t, Exec(c, first).table);
    acts := ClaimAlone(c, first, 0, 1);
    ClaimIsFirst(c, first, acts, 0, 0, 1);
  }

  lemma QuietIsNoClaim(log: Log, log': Log, id: EventId)
    requires Unclaimed(log, |log|, id) && log + [Quiet, Quiet] <= log'
    ensures Unclaimed(log', |log| + 2, id)
  {
    forall m | 0 <= m < |log| + 2
      ensures !(log'[m].Claim? && id in log'[m].ids)
    {
      assert log'[m] == (log + [Quiet, Quiet])[m];
    }
  }

  /** For every configuration that can claim anything, the order of two events of one user does break in some run. */
  lemma ReinsertionBreaksFifo(c: Config) returns (acts: seq<Action>, k: nat, i: nat, j: nat)
    requires 0 < c.batchSize
    ensures Valid(c, acts) && |Exec(c, acts).log| == |acts| && FirstClaims(c, acts, k, 0, 1)
    ensures i < j < |acts|
    ensures Exec(c, acts).log[i] == Delivery(1, HandlersOk) && Exec(c, acts).log[j] == Delivery(0, HandlersOk)
  {
    var claimed := SecondClaimed(c);
    k := |claimed| - 1;
    acts, i, j := OrderCanBreak(c, claimed, 0, 1);
    FirstClaimsExtends(c, claimed, acts, k, 0, 1);
  }
}
