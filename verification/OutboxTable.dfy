/**
 The outbox_events table as a value, and each SQL statement of the storage
 layer as a function from table to table.

 Times are microseconds on one shared clock.  Event ids are UUIDs, which SQL
 orders as 128-bit numbers; they are numbers here.
 */
module OutboxTable {
  import opened Wrappers

  type EventId = nat
  type UserId = nat
  type Time = int

  datatype Event = Event(eventType: string, user: Option<UserId>, payload: string, occurredAt: Time)

  datatype Status = Pending | Processing | Published | Failed

  datatype Row = Row(
    event: Event,
    status: Status,
    attempts: int,
    maxAttempts: int,
    nextAttemptAt: Time,
    createdAt: Time,
    lockedAt: Option<Time>,
    lockedBy: Option<string>,
    publishedAt: Option<Time>,
    lastError: Option<string>)

  type Table = map<EventId, Row>

  // ---------- constraints declared by the schema ----------

  /** The CHECK constraints of one row. */
  predicate RowLegal(r: Row) {
    && 0 <= r.attempts <= r.maxAttempts
    && 0 < r.maxAttempts
    && (r.status.Published? <==> r.publishedAt.Some?)
  }

  predicate SameUser(a: Row, b: Row) {
    a.event.user.Some? && a.event.user == b.event.user
  }

  /** The partial unique index: one Processing row for each non-null user. */
  predicate InflightUnique(t: Table) {
    forall i, j | i in t && j in t && i != j && t[i].status.Processing? && t[j].status.Processing? ::
      !SameUser(t[i], t[j])
  }

  predicate Legal(t: Table) {
    && (forall i | i in t :: RowLegal(t[i]))
    && InflightUnique(t)
  }

  /** A statement whose result breaks a constraint fails and changes nothing. */
  function Commit(before: Table, after: Table): Table {
    if Legal(after) then after else before
  }

  // ---------- statements ----------

  function NewRow(e: Event, maxAttempts: int, now: Time): Row {
    Row(e, Pending, 0, maxAttempts, now, now, None, None, None, None)
  }

  /** ON CONFLICT (id) DO NOTHING. */
  function Inserted(t: Table, id: EventId, e: Event, maxAttempts: int, now: Time): Table {
    if id in t then t else t[id := NewRow(e, maxAttempts, now)]
  }

  function Locked(t: Table, ids: set<EventId>, now: Time, owner: string): Table {
    map id | id in t ::
      if id in ids then t[id].(status := Processing, lockedAt := Some(now), lockedBy := Some(owner)) else t[id]
  }

  function Unlocked(r: Row, s: Status): Row {
    r.(status := s, lockedAt := None, lockedBy := None)
  }

  /** The three mark statements: each selects its row by id alone. */
  datatype Mark =
    | Publish(at: Time)
    | Retry(err: string, nextAt: Time)
    | Fail(reason: string)

  function MarkedRow(r: Row, m: Mark): Row {
    match m
    case Publish(at) => Unlocked(r, Published).(publishedAt := Some(at))
    case Retry(err, nextAt) =>
      Unlocked(r, Pending).(attempts := r.attempts + 1, lastError := Some(err), nextAttemptAt := nextAt)
    case Fail(reason) =>
      Unlocked(r, Failed).(attempts := r.attempts + 1, lastError := Some(reason))
  }

  function Marked(t: Table, id: EventId, m: Mark): Table {
    if id in t then t[id := MarkedRow(t[id], m)] else t
  }

  /**
   A mark addresses its row by id alone, so the constraints are all that can
   stop it: a failing mark is refused on a row out of attempts or published.
   */
  lemma MarkAcceptedIff(t: Table, id: EventId, m: Mark)
    requires Legal(t)
    ensures Legal(Marked(t, id, m)) <==>
      id !in t || m.Publish? || (t[id].attempts < t[id].maxAttempts && !t[id].status.Published?)
  {
    var after := Marked(t, id, m);
    if id in t {
      assert RowLegal(t[id]);
      assert RowLegal(after[id]) ==> forall x | x in after :: RowLegal(after[x]);
    }
  }

  predicate Stuck(r: Row, now: Time, stuckAfter: int) {
    r.status.Processing? && r.lockedAt.Some? && r.lockedAt.value < now - stuckAfter
  }

  function StuckIds(t: Table, now: Time, stuckAfter: int): set<EventId> {
    set id | id in t && Stuck(t[id], now, stuckAfter)
  }

  function Reset(t: Table, now: Time, stuckAfter: int): Table {
    map id | id in t :: if Stuck(t[id], now, stuckAfter) then Unlocked(t[id], Pending) else t[id]
  }

  predicate Expired(r: Row, now: Time, retention: int) {
    r.status.Published? && r.publishedAt.Some? && r.publishedAt.value < now - retention
  }

  function ExpiredIds(t: Table, now: Time, retention: int): set<EventId> {
    set id | id in t && Expired(t[id], now, retention)
  }

  // ---------- the claim query ----------

  /** (occurred_at, created_at, id) compared as SQL row values. */
  predicate Precedes(t: Table, a: EventId, b: EventId)
    requires a in t && b in t
  {
    || t[a].event.occurredAt < t[b].event.occurredAt
    || (t[a].event.occurredAt == t[b].event.occurredAt
        && (t[a].createdAt < t[b].createdAt || (t[a].createdAt == t[b].createdAt && a < b)))
  }

  predicate Due(t: Table, id: EventId, now: Time) {
    id in t && t[id].status.Pending? && t[id].nextAttemptAt <= now
  }

  /** The two NOT EXISTS clauses, which read the statement's snapshot. */
  predicate Unblocked(snap: Table, id: EventId)
    requires id in snap
  {
    && (forall p | p in snap && SameUser(snap[p], snap[id]) :: !snap[p].status.Processing?)
    && (forall e | e in snap && SameUser(snap[e], snap[id]) && snap[e].status.Pending? :: !Precedes(snap, e, id))
  }

  /**
   A row the claim may lock: it qualifies in the snapshot, and its own columns
   qualify again in the current table, where FOR UPDATE re-reads the locked row.
   */
  predicate Claimable(snap: Table, cur: Table, now: Time, id: EventId) {
    Due(snap, id, now) && Unblocked(snap, id) && Due(cur, id, now)
  }

  predicate Sorted(t: Table, ids: seq<EventId>)
    requires forall id | id in ids :: id in t
  {
    forall m, n | 0 <= m < n < |ids| :: Precedes(t, ids[m], ids[n])
  }

  /** ORDER BY ... LIMIT ... FOR UPDATE SKIP LOCKED: the first `limit` claimable rows nobody else has locked. */
  ghost predicate IsBatch(snap: Table, cur: Table, now: Time, limit: nat, skip: set<EventId>, ids: seq<EventId>) {
    && |ids| <= limit
    && (forall id | id in ids :: Claimable(snap, cur, now, id) && id !in skip)
    && Sorted(snap, ids)
    && (forall id | Claimable(snap, cur, now, id) && id !in skip && id !in ids ::
          |ids| == limit && forall k | k in ids :: Precedes(snap, k, id))
  }

  // ---------- properties of the claim query ----------

  /** A strict total order on the rows. */
  lemma PrecedesTotal(t: Table, a: EventId, b: EventId)
    requires a in t && b in t
    ensures a == b || Precedes(t, a, b) || Precedes(t, b, a)
    ensures !(Precedes(t, a, b) && Precedes(t, b, a))
    ensures forall x | x in t && Precedes(t, a, b) && Precedes(t, b, x) :: Precedes(t, a, x)
  {
  }

  /** Two claimable rows are never of the same user. */
  lemma ClaimableUsersDiffer(snap: Table, cur: Table, now: Time, a: EventId, b: EventId)
    requires Claimable(snap, cur, now, a) && Claimable(snap, cur, now, b) && a != b
    ensures !SameUser(snap[a], snap[b])
  {
    PrecedesTotal(snap, a, b);
  }

  /** A claim that reads a fresh snapshot can never trip the unique index, so it is never deferred. */
  lemma FreshClaimIsNeverDeferred(t: Table, now: Time, ids: set<EventId>, owner: string)
    requires Legal(t)
    requires forall id | id in ids :: Claimable(t, t, now, id)
    ensures Legal(Locked(t, ids, now, owner))
  {
    var after := Locked(t, ids, now, owner);
    forall i, j | i in after && j in after && i != j && after[i].status.Processing? && after[j].status.Processing?
      ensures !SameUser(after[i], after[j])
    {
      if i in ids && j in ids {
        ClaimableUsersDiffer(t, t, now, i, j);
      } else if i in ids {
        assert Unblocked(t, i);
      } else if j in ids {
        assert Unblocked(t, j);
      }
    }
  }

  /** ORDER BY and LIMIT leave no choice: the batch is determined by the tables and the skipped rows. */
  lemma {:induction false} BatchIsUnique(snap: Table, cur: Table, now: Time, limit: nat, skip: set<EventId>,
                                         xs: seq<EventId>, ys: seq<EventId>)
    requires IsBatch(snap, cur, now, limit, skip, xs) && IsBatch(snap, cur, now, limit, skip, ys)
    ensures xs == ys
  {
    var n := if |xs| < |ys| then |xs| else |ys|;
    PrefixesAgree(snap, cur, now, limit, skip, xs, ys, n);
    if n < |ys| {
      ElementIsIn(ys, n);
    } else if n < |xs| {
      ElementIsIn(xs, n);
    }
  }

  lemma ElementIsIn(ids: seq<EventId>, n: nat)
    requires n < |ids|
    ensures ids[n] in ids
  {
  }

  lemma {:induction false} PrefixesAgree(snap: Table, cur: Table, now: Time, limit: nat, skip: set<EventId>,
                                         xs: seq<EventId>, ys: seq<EventId>, n: nat)
    requires IsBatch(snap, cur, now, limit, skip, xs) && IsBatch(snap, cur, now, limit, skip, ys)
    requires n <= |xs| && n <= |ys|
    ensures forall m | 0 <= m < n :: xs[m] == ys[m]
  {
    if n > 0 {
      PrefixesAgree(snap, cur, now, limit, skip, xs, ys, n - 1);
      var x, y := xs[n - 1], ys[n - 1];
      assert x in xs && y in ys;
      PrecedesTotal(snap, x, y);
      if Precedes(snap, x, y) {
        EarlierIsInBatch(snap, cur, now, limit, skip, ys, x, n - 1);
      } else if Precedes(snap, y, x) {
        EarlierIsInBatch(snap, cur, now, limit, skip, xs, y, n - 1);
      }
    }
  }

  lemma EarlierIsInBatch(snap: Table, cur: Table, now: Time, limit: nat, skip: set<EventId>,
                         ids: seq<EventId>, id: EventId, n: nat)
    requires IsBatch(snap, cur, now, limit, skip, ids) && n < |ids| && ids[n] in ids
    requires Claimable(snap, cur, now, id) && id !in skip && Precedes(snap, id, ids[n])
    ensures exists m :: 0 <= m < n && ids[m] == id
  {
    PrecedesTotal(snap, id, ids[n]);
    assert id in ids;
  }
}
