/**
 What happened to the outbox, one entry for each committed step, and the fate
 of a single event as its own entries tell it.  The protocol module proves that
 the table never disagrees with this account.
 */
module OutboxHistory {
  import opened Wrappers
  import opened OutboxTable

  /** How the handlers of one delivery ended. */
  datatype Verdict = HandlersOk | HandlersFailed | NoHandlers

  datatype Entry =
    | Quiet
    | Insertion(id: EventId)
    | Claim(ids: set<EventId>)
    | Delivery(id: EventId, verdict: Verdict)
    | Marking(id: EventId, mark: Mark)
    | Release(ids: set<EventId>)
    | Purge(ids: set<EventId>)

  type Log = seq<Entry>

  datatype Fate =
    | Absent
    | Waiting(fails: int)
    | Held(fails: int, verdict: Option<Verdict>)
    | Done(fails: int)
    | Dead(fails: int)
    | Broken

  predicate About(e: Entry, id: EventId) {
    match e
    case Quiet => false
    case Insertion(i) => i == id
    case Claim(ids) => id in ids
    case Delivery(i, _) => i == id
    case Marking(i, _) => i == id
    case Release(ids) => id in ids
    case Purge(ids) => id in ids
  }

  /** The only lawful lives of an event; anything else is Broken for good. */
  function Next(f: Fate, e: Entry): Fate {
    match (f, e)
    case (Absent, Insertion(_)) => Waiting(0)
    case (Waiting(n), Claim(_)) => Held(n, None)
    case (Held(n, None), Delivery(_, v)) => Held(n, Some(v))
    case (Held(n, _), Release(_)) => Waiting(n)
    case (Held(n, Some(HandlersOk)), Marking(_, Publish(_))) => Done(n)
    case (Held(n, Some(HandlersFailed)), Marking(_, Retry(_, _))) => Waiting(n + 1)
    case (Held(n, Some(HandlersFailed)), Marking(_, Fail(_))) => Dead(n + 1)
    case (Held(n, Some(NoHandlers)), Marking(_, Fail(_))) => Dead(n + 1)
    case (Done(_), Purge(_)) => Absent
    case _ => Broken
  }

  function FateOf(log: Log, id: EventId): Fate {
    if log == [] then Absent
    else
      var f := FateOf(log[..|log| - 1], id);
      var e := log[|log| - 1];
      if About(e, id) then Next(f, e) else f
  }

  lemma FateAfter(log: Log, e: Entry, id: EventId)
    ensures FateOf(log + [e], id) == if About(e, id) then Next(FateOf(log, id), e) else FateOf(log, id)
  {
    assert (log + [e])[..|log|] == log;
  }

  // ---------- counting since the last insertion ----------

  datatype Tally = Tally(claims: nat, deliveries: nat, fails: nat, releases: nat)

  function Count(t: Tally, e: Entry): Tally {
    match e
    case Insertion(_) => Tally(0, 0, 0, 0)
    case Claim(_) => t.(claims := t.claims + 1)
    case Delivery(_, _) => t.(deliveries := t.deliveries + 1)
    case Release(_) => t.(releases := t.releases + 1)
    case Marking(_, m) => if m.Publish? then t else t.(fails := t.fails + 1)
    case _ => t
  }

  function TallyOf(log: Log, id: EventId): Tally {
    if log == [] then Tally(0, 0, 0, 0)
    else
      var t := TallyOf(log[..|log| - 1], id);
      var e := log[|log| - 1];
      if About(e, id) then Count(t, e) else t
  }

  lemma TallyAfter(log: Log, e: Entry, id: EventId)
    ensures TallyOf(log + [e], id) == if About(e, id) then Count(TallyOf(log, id), e) else TallyOf(log, id)
  {
    assert (log + [e])[..|log|] == log;
  }

  /**
   Every claim of a living event ended in exactly one failing mark or release,
   or is the open or publishing one; and no claim is delivered twice.
   */
  lemma {:induction false} ClaimsAreConserved(log: Log, id: EventId)
    ensures var t := TallyOf(log, id);
      match FateOf(log, id)
      case Waiting(n) => t.fails == n && t.claims == n + t.releases && t.deliveries <= t.claims
      case Held(n, v) =>
        && t.fails == n && t.claims == n + t.releases + 1
        && t.deliveries + (if v.Some? then 0 else 1) <= t.claims
      case Done(n) => t.fails == n && t.claims == n + t.releases + 1 && t.deliveries <= t.claims
      case Dead(n) => t.fails == n && t.claims == n + t.releases && t.deliveries <= t.claims
      case _ => true
  {
    if log != [] {
      ClaimsAreConserved(log[..|log| - 1], id);
    }
  }

  // ---------- where a fate came from ----------

  ghost predicate QuietAbout(log: Log, id: EventId, from: nat, to: nat)
    requires to <= |log|
  {
    forall k | from <= k < to :: !About(log[k], id)
  }

  lemma {:induction false} HeldWasDelivered(log: Log, id: EventId) returns (d: nat)
    requires FateOf(log, id).Held? && FateOf(log, id).verdict.Some?
    ensures d < |log| && log[d] == Delivery(id, FateOf(log, id).verdict.value)
    ensures QuietAbout(log, id, d + 1, |log|)
  {
    var last := |log| - 1;
    if About(log[last], id) {
      d := last;
    } else {
      d := HeldWasDelivered(log[..last], id);
    }
  }

  lemma {:induction false} DoneWasDelivered(log: Log, id: EventId) returns (d: nat, m: nat)
    requires FateOf(log, id).Done?
    ensures d < m < |log| && log[d] == Delivery(id, HandlersOk)
    ensures log[m].Marking? && log[m].id == id && log[m].mark.Publish?
    ensures QuietAbout(log, id, d + 1, m) && QuietAbout(log, id, m + 1, |log|)
  {
    var last := |log| - 1;
    if About(log[last], id) {
      m := last;
      d := HeldWasDelivered(log[..last], id);
    } else {
      d, m := DoneWasDelivered(log[..last], id);
    }
  }

  /** An event that was inserted and is gone was delivered with success, then published, then purged, in this order. */
  lemma {:induction false} GoneWasDelivered(log: Log, id: EventId, i: nat) returns (d: nat, m: nat, p: nat)
    requires FateOf(log, id).Absent? && i < |log| && log[i] == Insertion(id)
    ensures i < d < m < p < |log|
    ensures log[d] == Delivery(id, HandlersOk)
    ensures log[m].Marking? && log[m].id == id && log[m].mark.Publish?
    ensures log[p].Purge? && id in log[p].ids
  {
    var last := |log| - 1;
    if About(log[last], id) {
      p := last;
      d, m := DoneWasDelivered(log[..last], id);
    } else {
      d, m, p := GoneWasDelivered(log[..last], id, i);
    }
  }

  /** Nothing is delivered before it is claimed. */
  lemma {:induction false} HeldWasClaimed(log: Log, id: EventId) returns (k: nat)
    requires FateOf(log, id).Held?
    ensures k < |log| && log[k].Claim? && id in log[k].ids
  {
    var last := |log| - 1;
    if log[last].Claim? && id in log[last].ids {
      k := last;
    } else {
      k := HeldWasClaimed(log[..last], id);
    }
  }
}
