/**
 Any number of Start, Resume and reaper calls interleave on one store.  Each
 call is cut at its store statements; between two statements every other call
 may run.
 */
module WorkflowProtocol {
  import opened Wrappers
  import opened JsonMerge
  import opened WorkflowSteps
  import opened WorkflowEngine

  type FlightId = nat

  /** A call between two of its store statements. */
  datatype Flight<S> =
    | Starting(key: string, initial: S)
    | Conflicted(key: string)
    | Executing(loaded: Snapshot, input: Input, now: Time, plan: Plan<S>, joined: bool)
    | Resolving(key: string, joined: bool)
    | Reaping(todo: seq<Snapshot>)
    | Answered(result: RunResult<S>, err: Option<EngineError>)

  /** The statements that changed the store, in the order they committed. */
  datatype Entry =
    | Began(first: Snapshot)
    | Advanced(runId: RunId, input: Input, now: Time)
    | Expired(runId: RunId, now: Time)
    | Forgot(ids: set<RunId>)

  datatype State<S> = State(runs: Runs, flights: map<FlightId, Flight<S>>, used: set<RunId>, log: seq<Entry>)

  datatype Action<S> =
    | StartCheck(f: FlightId, key: string, initial: S)
    | StartInsert(f: FlightId, newId: RunId, now: Time)
    | ConflictLoad(f: FlightId, now: Time)
    | ResumeLoad(f: FlightId, key: string, resume: Option<Json>, now: Time)
    | CommitSave(f: FlightId)
    | Resolve(f: FlightId)
    | ReapList(f: FlightId, ids: seq<RunId>)
    | ReapSave(f: FlightId, now: Time)
    | DeleteCompleted(gone: set<RunId>)
    | Forget(f: FlightId)

  datatype World<!S> = World(def: Definition<S>, codec: Codec<S>)

  ghost predicate Enabled<S>(w: World<S>, s: State<S>, a: Action<S>) {
    match a
    case StartCheck(f, _, _) => f !in s.flights
    case StartInsert(f, newId, _) => f in s.flights && s.flights[f].Starting? && newId !in s.used
    case ConflictLoad(f, _) => f in s.flights && s.flights[f].Conflicted?
    case ResumeLoad(f, _, _, _) => f !in s.flights
    case CommitSave(f) => f in s.flights && s.flights[f].Executing?
    case Resolve(f) => f in s.flights && s.flights[f].Resolving?
    case ReapList(f, ids) => f !in s.flights && forall id | id in ids :: id in s.runs && s.runs[id].status.RunSuspended?
    case ReapSave(f, _) => f in s.flights && s.flights[f].Reaping? && s.flights[f].todo != []
    case DeleteCompleted(ids) => forall id | id in ids :: id in s.runs && !Active(s.runs[id])
    case Forget(f) => f in s.flights
  }

  function Fly<S>(s: State<S>, f: FlightId, fl: Flight<S>): State<S> {
    s.(flights := s.flights[f := fl])
  }

  ghost function Check<S>(w: World<S>, s: State<S>, key: string, initial: S): Flight<S> {
    if w.codec.enc(initial).None? then Answered(NoResult, Some(EncodeFailed))
    else if Loaded(s.runs, w.def.id, key).Some? then Answered(NoResult, Some(RunAlreadyExists))
    else Starting(key, initial)
  }

  /** The insert: a clash on the active key sends the call to load the winner's run. */
  function Insert<S>(w: World<S>, s: State<S>, f: FlightId, newId: RunId, now: Time): State<S>
    requires f in s.flights && s.flights[f].Starting?
  {
    var fl := s.flights[f];
    match w.codec.enc(fl.initial)
    case None => s
    case Some(bytes) =>
      var snap := FirstSnapshot(w.def, newId, fl.key, bytes, now);
      if InsertClashes(s.runs, snap) then Fly(s, f, Conflicted(fl.key))
      else
        var plan := PlanOf(w.def, w.codec, snap, fl.initial, 0, now);
        State(s.runs[newId := snap], s.flights[f := Executing(snap, Continue, now, plan, false)],
              s.used + {newId}, s.log + [Began(snap)])
  }

  /** A call that found an active run to continue. */
  function Take<S>(w: World<S>, snap: Snapshot, input: Input, now: Time, joined: bool): Flight<S> {
    match StateFor(w.codec, snap, input)
    case Err(e) => Answered(NoResult, Some(e))
    case Ok(_) => Executing(snap, input, now, PlanFor(w.def, w.codec, snap, input, now), joined)
  }

  ghost function Join<S>(w: World<S>, s: State<S>, key: string, now: Time): Flight<S> {
    match Loaded(s.runs, w.def.id, key)
    case None => Answered(NoResult, Some(InsertConflictRunNotFound))
    case Some(id) => Take(w, s.runs[id], Continue, now, true)
  }

  ghost function Pick<S>(w: World<S>, s: State<S>, key: string, resume: Option<Json>, now: Time): Flight<S> {
    match Loaded(s.runs, w.def.id, key)
    case None => Answered(NoResult, None)
    case Some(id) =>
      if s.runs[id].status.RunSuspended? then Take(w, s.runs[id], InputOf(resume), now, false)
      else Answered(NoResult, None)
  }

  function Save<S>(s: State<S>, f: FlightId): State<S>
    requires f in s.flights && s.flights[f].Executing?
  {
    var fl := s.flights[f];
    match fl.plan
    case Abort(e) => Fly(s, f, Answered(NoResult, Some(e)))
    case Finish(snap, result, err) =>
      match SaveResult(s.runs, snap, snap.version)
      case (Saved, after) =>
        Fly(s, f, Answered(result, err)).(runs := after, log := s.log + [Advanced(snap.runId, fl.input, fl.now)])
      case (VersionConflict, _) => Fly(s, f, Resolving(fl.loaded.key, fl.joined))
      case (Rejected, _) => Fly(s, f, Answered(NoResult, Some(SaveRejected)))
  }

  /** The loser's answer; a call that joined another's run reports it without an error. */
  ghost function Answer<S>(w: World<S>, s: State<S>, key: string, joined: bool): Flight<S> {
    var (result, e) := ResolveConflict(s.runs, w.codec, w.def.id, key);
    Answered(result, if joined && e.RunConflict? then None else Some(e))
  }

  function Snapshots(runs: Runs, ids: seq<RunId>): seq<Snapshot>
    requires forall id | id in ids :: id in runs
  {
    if ids == [] then []
    else
      assert ids[|ids| - 1] in ids && forall id | id in ids[..|ids| - 1] :: id in ids;
      Snapshots(runs, ids[..|ids| - 1]) + [runs[ids[|ids| - 1]]]
  }

  function ReapHead<S>(s: State<S>, f: FlightId, now: Time): State<S>
    requires f in s.flights && s.flights[f].Reaping? && s.flights[f].todo != []
  {
    var todo := s.flights[f].todo;
    var s' := Fly(s, f, Reaping(todo[1..]));
    match SaveResult(s.runs, ReapedSnap(todo[0], now), todo[0].version)
    case (Saved, after) => s'.(runs := after, log := s.log + [Expired(todo[0].runId, now)])
    case _ => s'
  }

  ghost function Apply<S>(w: World<S>, s: State<S>, a: Action<S>): State<S>
    requires Enabled(w, s, a)
  {
    match a
    case StartCheck(f, key, initial) => Fly(s, f, Check(w, s, key, initial))
    case StartInsert(f, newId, now) => Insert(w, s, f, newId, now)
    case ConflictLoad(f, now) => Fly(s, f, Join(w, s, s.flights[f].key, now))
    case ResumeLoad(f, key, resume, now) => Fly(s, f, Pick(w, s, key, resume, now))
    case CommitSave(f) => Save(s, f)
    case Resolve(f) => Fly(s, f, Answer(w, s, s.flights[f].key, s.flights[f].joined))
    case ReapList(f, ids) => Fly(s, f, Reaping(Snapshots(s.runs, ids)))
    case ReapSave(f, now) => ReapHead(s, f, now)
    case DeleteCompleted(ids) => s.(runs := s.runs - ids, log := s.log + [Forgot(ids)])
    case Forget(f) => s.(flights := s.flights - {f})
  }

  // ---------- runs of the protocol ----------

  function Init<S>(): State<S> {
    State(map[], map[], {}, [])
  }

  ghost predicate Valid<S>(w: World<S>, acts: seq<Action<S>>)
    decreases |acts|, 0
  {
    acts == [] ||
    (var n := |acts| - 1; Valid(w, acts[..n]) && Enabled(w, Exec(w, acts[..n]), acts[n]))
  }

  ghost function Exec<S>(w: World<S>, acts: seq<Action<S>>): State<S>
    requires Valid(w, acts)
    decreases |acts|, 1
  {
    if acts == [] then Init()
    else var n := |acts| - 1; Apply(w, Exec(w, acts[..n]), acts[n])
  }

  // ---------- the serial semantics ----------

  /** The effect of one committed call executed alone, reading the store as it is at that moment. */
  function Serial<S>(w: World<S>, runs: Runs, e: Entry): Runs {
    match e
    case Began(first) => runs[first.runId := first]
    case Advanced(id, input, now) =>
      if id !in runs then runs
      else
        var plan := PlanFor(w.def, w.codec, runs[id], input, now);
        if plan.Abort? then runs else runs[id := Stored(runs[id], plan.snap)]
    case Expired(id, now) =>
      if id !in runs then runs else runs[id := Stored(runs[id], ReapedSnap(runs[id], now))]
    case Forgot(ids) => runs - ids
  }

  function Replay<S>(w: World<S>, log: seq<Entry>): Runs {
    if log == [] then map[] else Serial(w, Replay(w, log[..|log| - 1]), log[|log| - 1])
  }

  lemma ReplayAfter<S>(w: World<S>, log: seq<Entry>, e: Entry)
    ensures Replay(w, log + [e]) == Serial(w, Replay(w, log), e)
  {
    assert (log + [e])[..|log|] == log;
  }

  // ---------- the invariant ----------

  /** What encodes decodes back. */
  ghost predicate Faithful<S(!new)>(codec: Codec<S>) {
    forall st: S :: codec.enc(st).Some? ==> codec.dec(codec.enc(st).value) == Some(st)
  }

  predicate InRange<S>(def: Definition<S>, s: Snapshot) {
    match def.root
    case SequenceRoot(steps) => s.cursor <= |steps| && (s.status.RunSuspended? ==> s.cursor < |steps|)
    case SingleRoot(_) => s.cursor == 0
  }

  predicate RowInv<S>(w: World<S>, id: RunId, s: Snapshot) {
    && s.runId == id && s.workflow == w.def.id && 1 <= s.version && 1 <= s.maxAttempts
    && (s.endedAt.Some? <==> !Active(s))
    && InRange(w.def, s)
  }

  ghost predicate RunsInv<S>(w: World<S>, s: State<S>) {
    && OneActive(s.runs)
    && (forall id | id in s.runs :: id in s.used && RowInv(w, id, s.runs[id]))
  }

  /** A loaded snapshot whose version is still the stored one is still the stored row. */
  ghost predicate Held<S>(w: World<S>, s: State<S>, snap: Snapshot) {
    && Active(snap) && RowInv(w, snap.runId, snap) && snap.runId in s.used
    && (snap.runId in s.runs ==>
          snap.version <= s.runs[snap.runId].version &&
          (snap.version == s.runs[snap.runId].version ==> s.runs[snap.runId] == snap))
  }

  ghost predicate FlightInv<S>(w: World<S>, s: State<S>, fl: Flight<S>) {
    match fl
    case Executing(loaded, input, now, plan, _) =>
      && Held(w, s, loaded) && plan == PlanFor(w.def, w.codec, loaded, input, now)
      && (input.Patched? ==> loaded.status.RunSuspended?)
    case Reaping(todo) => forall n | 0 <= n < |todo| :: Held(w, s, todo[n]) && todo[n].status.RunSuspended?
    case Starting(_, initial) => w.codec.enc(initial).Some?
    case _ => true
  }

  ghost predicate Inv<S>(w: World<S>, s: State<S>) {
    && RunsInv(w, s)
    && (forall f | f in s.flights :: FlightInv(w, s, s.flights[f]))
    && s.runs == Replay(w, s.log)
  }

  /** How a store may change in one step: rows move forward, a finished row never changes, ids are never reused. */
  ghost predicate Forward(before: Runs, after: Runs, used: set<RunId>) {
    forall id | id in after ::
      if id in before then Progress(before[id], after[id]) else id !in used
  }

  predicate Progress(a: Snapshot, b: Snapshot) {
    a == b ||
    (&& Active(a) && b.version == a.version + 1 && a.cursor <= b.cursor
     && b.runId == a.runId && SameKey(a, b) && b.maxAttempts == a.maxAttempts && b.createdAt == a.createdAt)
  }

  // ---------- preservation ----------

  /** The snapshot a plan saves keeps identity and version, stays in range, and never moves the cursor back. */
  lemma PlanShape<S>(w: World<S>, snap: Snapshot, input: Input, now: Time)
    requires RowInv(w, snap.runId, snap) && Active(snap)
    ensures var p := PlanFor(w.def, w.codec, snap, input, now);
      p.Finish? ==>
        && p.snap.runId == snap.runId && p.snap.version == snap.version && SameKey(p.snap, snap)
        && snap.cursor <= p.snap.cursor && p.snap.status != RunRunning
        && RowInv(w, snap.runId, Stored(snap, p.snap))
        && p.result == RunResult(snap.runId, p.snap.status, p.result.state, p.result.suspend)
  {
    match StateFor(w.codec, snap, input)
    case Err(_) =>
    case Ok(st) =>
      match w.def.root
      case SequenceRoot(steps) => LoopRange(steps, snap.cursor, st, None);
      case SingleRoot(_) =>
  }

  lemma {:induction false} LoopRange<S>(steps: seq<Step<S>>, i: nat, state: S, last: Option<Suspension>)
    ensures match RunFrom(steps, i, state, last)
      case SuspendedAt(j, _, _) => i <= j < |steps|
      case _ => true
    decreases |steps| - i
  {
    if i < |steps| && !steps[i].run(state).err.Some? {
      LoopRange(steps, i + 1, steps[i].run(state).out.state, steps[i].run(state).out.suspend);
    }
  }

  lemma KeepHeld<S>(w: World<S>, s: State<S>, s': State<S>, snap: Snapshot)
    requires Held(w, s, snap) && Forward(s.runs, s'.runs, s.used) && s.used <= s'.used
    ensures Held(w, s', snap)
  {
  }

  lemma KeepFlights<S>(w: World<S>, s: State<S>, s': State<S>, f: FlightId)
    requires Inv(w, s) && Forward(s.runs, s'.runs, s.used) && s.used <= s'.used
    requires f in s.flights
    ensures FlightInv(w, s', s.flights[f])
  {
    assert FlightInv(w, s, s.flights[f]);
    match s.flights[f]
    case Executing(loaded, _, _, _, _) => KeepHeld(w, s, s', loaded);
    case Reaping(todo) =>
      forall n | 0 <= n < |todo|
        ensures Held(w, s', todo[n]) && todo[n].status.RunSuspended?
      {
        KeepHeld(w, s, s', todo[n]);
      }
    case _ =>
  }

  /** A step that only changes flight f. */
  lemma FlyStep<S>(w: World<S>, s: State<S>, f: FlightId, fl: Flight<S>)
    requires Inv(w, s) && FlightInv(w, s, fl)
    ensures Inv(w, Fly(s, f, fl)) && Forward(s.runs, Fly(s, f, fl).runs, s.used)
  {
    var s' := Fly(s, f, fl);
    forall g | g in s'.flights
      ensures FlightInv(w, s', s'.flights[g])
    {
      if g != f {
        KeepFlights(w, s, s', g);
      }
    }
  }

  lemma TakeInv<S>(w: World<S>, s: State<S>, id: RunId, input: Input, now: Time, joined: bool)
    requires Inv(w, s) && id in s.runs && Active(s.runs[id]) && (input.Patched? ==> s.runs[id].status.RunSuspended?)
    ensures FlightInv(w, s, Take(w, s.runs[id], input, now, joined))
  {
  }

  /** Under a faithful codec the starter's own execution is the one anybody would do on the inserted snapshot. */
  lemma FirstPlan<S(!new)>(w: World<S>, newId: RunId, key: string, initial: S, now: Time)
    requires Faithful(w.codec) && w.codec.enc(initial).Some?
    ensures var snap := FirstSnapshot(w.def, newId, key, w.codec.enc(initial).value, now);
      PlanOf(w.def, w.codec, snap, initial, 0, now) == PlanFor(w.def, w.codec, snap, Continue, now)
  {
  }

  lemma InsertStep<S(!new)>(w: World<S>, s: State<S>, f: FlightId, newId: RunId, now: Time)
    requires Inv(w, s) && Faithful(w.codec) && f in s.flights && s.flights[f].Starting? && newId !in s.used
    ensures Inv(w, Insert(w, s, f, newId, now)) && Forward(s.runs, Insert(w, s, f, newId, now).runs, s.used)
  {
    var fl := s.flights[f];
    assert FlightInv(w, s, fl);
    var snap := FirstSnapshot(w.def, newId, fl.key, w.codec.enc(fl.initial).value, now);
    var s' := Insert(w, s, f, newId, now);
    if InsertClashes(s.runs, snap) {
      FlyStep(w, s, f, Conflicted(fl.key));
    } else {
      FirstPlan(w, newId, fl.key, fl.initial, now);
      ReplayAfter(w, s.log, Began(snap));
      forall g | g in s'.flights
        ensures FlightInv(w, s', s'.flights[g])
      {
        if g != f {
          KeepFlights(w, s, s', g);
        }
      }
    }
  }

  /** A row swap by compare and swap, for the engine and the reaper alike. */
  lemma SwapStep<S>(w: World<S>, s: State<S>, s': State<S>, f: FlightId, held: Snapshot, snap: Snapshot,
                    e: Entry, fl: Flight<S>)
    requires Inv(w, s) && Held(w, s, held) && held.runId in s.runs && s.runs[held.runId].version == held.version
    requires snap.runId == held.runId && SameKey(snap, held) && held.cursor <= snap.cursor
    requires RowInv(w, held.runId, Stored(held, snap))
    requires s'.runs == s.runs[held.runId := Stored(held, snap)] && s'.used == s.used && s'.log == s.log + [e]
    requires Serial(w, s.runs, e) == s'.runs
    requires s'.flights == s.flights[f := fl] && FlightInv(w, s', fl)
    ensures Inv(w, s') && Forward(s.runs, s'.runs, s.used)
  {
    EndingKeepsOneActive(s.runs, held.runId, Stored(held, snap));
    ReplayAfter(w, s.log, e);
    forall g | g in s'.flights
      ensures FlightInv(w, s', s'.flights[g])
    {
      if g != f {
        KeepFlights(w, s, s', g);
      }
    }
  }

  lemma SaveStep<S>(w: World<S>, s: State<S>, f: FlightId)
    requires Inv(w, s) && f in s.flights && s.flights[f].Executing?
    ensures Inv(w, Save(s, f)) && Forward(s.runs, Save(s, f).runs, s.used)
  {
    var fl := s.flights[f];
    var s' := Save(s, f);
    assert FlightInv(w, s, fl);
    PlanShape(w, fl.loaded, fl.input, fl.now);
    if s'.runs == s.runs && s'.log == s.log {
      FlyStep(w, s, f, s'.flights[f]);
    } else {
      var snap := fl.plan.snap;
      SwapStep(w, s, s', f, fl.loaded, snap, Advanced(snap.runId, fl.input, fl.now), s'.flights[f]);
    }
  }

  lemma ReapStep<S>(w: World<S>, s: State<S>, f: FlightId, now: Time)
    requires Inv(w, s) && f in s.flights && s.flights[f].Reaping? && s.flights[f].todo != []
    ensures Inv(w, ReapHead(s, f, now)) && Forward(s.runs, ReapHead(s, f, now).runs, s.used)
  {
    var todo := s.flights[f].todo;
    var s' := ReapHead(s, f, now);
    assert FlightInv(w, s, s.flights[f]);
    if s'.log == s.log {
      FlyStep(w, s, f, Reaping(todo[1..]));
    } else {
      assert Forward(s.runs, s'.runs, s.used);
      KeepFlights(w, s, s', f);
      SwapStep(w, s, s', f, todo[0], ReapedSnap(todo[0], now), Expired(todo[0].runId, now), Reaping(todo[1..]));
    }
  }

  lemma {:induction false} ListedAreHeld<S>(w: World<S>, s: State<S>, ids: seq<RunId>)
    requires Inv(w, s) && forall id | id in ids :: id in s.runs && s.runs[id].status.RunSuspended?
    ensures FlightInv(w, s, Reaping(Snapshots(s.runs, ids)))
  {
    if ids != [] {
      assert ids[|ids| - 1] in ids && forall id | id in ids[..|ids| - 1] :: id in ids;
      ListedAreHeld(w, s, ids[..|ids| - 1]);
      var todo := Snapshots(s.runs, ids[..|ids| - 1]);
      assert FlightInv(w, s, Reaping(todo));
    }
  }

  lemma DeleteStep<S>(w: World<S>, s: State<S>, ids: set<RunId>)
    requires Inv(w, s)
    ensures var s' := s.(runs := s.runs - ids, log := s.log + [Forgot(ids)]);
      Inv(w, s') && Forward(s.runs, s'.runs, s.used)
  {
    var s' := s.(runs := s.runs - ids, log := s.log + [Forgot(ids)]);
    ReplayAfter(w, s.log, Forgot(ids));
    forall g | g in s'.flights
      ensures FlightInv(w, s', s'.flights[g])
    {
      KeepFlights(w, s, s', g);
    }
  }

  lemma StepKeepsInv<S(!new)>(w: World<S>, s: State<S>, a: Action<S>)
    requires Faithful(w.codec) && Inv(w, s) && Enabled(w, s, a)
    ensures Inv(w, Apply(w, s, a)) && Forward(s.runs, Apply(w, s, a).runs, s.used) && s.used <= Apply(w, s, a).used
  {
    match a
    case StartCheck(f, key, initial) => FlyStep(w, s, f, Check(w, s, key, initial));
    case StartInsert(f, newId, now) => InsertStep(w, s, f, newId, now);
    case ConflictLoad(f, now) =>
      var key := s.flights[f].key;
      match Loaded(s.runs, w.def.id, key) {
        case None =>
        case Some(id) => TakeInv(w, s, id, Continue, now, true);
      }
      FlyStep(w, s, f, Join(w, s, key, now));
    case ResumeLoad(f, key, resume, now) =>
      match Loaded(s.runs, w.def.id, key) {
        case None =>
        case Some(id) =>
          if s.runs[id].status.RunSuspended? {
            TakeInv(w, s, id, InputOf(resume), now, false);
          }
      }
      FlyStep(w, s, f, Pick(w, s, key, resume, now));
    case CommitSave(f) => SaveStep(w, s, f);
    case Resolve(f) => FlyStep(w, s, f, Answer(w, s, s.flights[f].key, s.flights[f].joined));
    case ReapList(f, ids) =>
      ListedAreHeld(w, s, ids);
      FlyStep(w, s, f, Reaping(Snapshots(s.runs, ids)));
    case ReapSave(f, now) => ReapStep(w, s, f, now);
    case DeleteCompleted(ids) => DeleteStep(w, s, ids);
    case Forget(f) =>
      var s' := s.(flights := s.flights - {f});
      forall g | g in s'.flights
        ensures FlightInv(w, s', s'.flights[g])
      {
        KeepFlights(w, s, s', g);
      }
  }

  lemma {:induction false} Reachable<S(!new)>(w: World<S>, acts: seq<Action<S>>)
    requires Faithful(w.codec) && Valid(w, acts)
    ensures Inv(w, Exec(w, acts))
  {
    if acts != [] {
      var n := |acts| - 1;
      Reachable(w, acts[..n]);
      StepKeepsInv(w, Exec(w, acts[..n]), acts[n]);
    }
  }
}
