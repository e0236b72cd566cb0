/**
 The durable engine: snapshots, the store's statements, and Start and Resume.
 */
module WorkflowEngine {
  import opened Wrappers
  import opened JsonMerge
  import opened WorkflowSteps

  type RunId = nat
  type Time = int

  datatype RunStatus = RunRunning | RunSuspended | RunSucceeded | RunFailed

  datatype EngineError =
    | StepErrored(cause: Fault)
    | StepFailed(stepId: string)
    | Reaped
    | EncodeFailed
    | DecodeFailed
    | MergeFailed(why: MergeError)
    | RunAlreadyExists
    | InsertConflictRunNotFound
    | RunConflict
    | VersionConflictRunNotFound
    | SaveRejected

  datatype Snapshot = Snapshot(
    runId: RunId,
    workflow: string,
    key: string,
    status: RunStatus,
    suspendReason: Option<SuspendReason>,
    cursor: nat,
    state: Json,
    attempts: nat,
    maxAttempts: int,
    version: int,
    lastError: Option<EngineError>,
    createdAt: Time,
    updatedAt: Time,
    endedAt: Option<Time>)

  type Runs = map<RunId, Snapshot>

  datatype Codec<!S> = Codec(enc: S -> Option<Json>, dec: Json -> Option<S>)

  datatype Root<!S> = SequenceRoot(steps: seq<Step<S>>) | SingleRoot(step: Step<S>)

  datatype Definition<!S> = Definition(id: string, root: Root<S>, durable: bool, maxAttempts: int)

  datatype RunResult<S> = NoResult | RunResult(runId: RunId, status: RunStatus, state: S, suspend: Option<Suspension>)

  // ---------- the store's statements ----------

  predicate Active(s: Snapshot) {
    s.status.RunRunning? || s.status.RunSuspended?
  }

  predicate SameKey(a: Snapshot, b: Snapshot) {
    a.workflow == b.workflow && a.key == b.key
  }

  /** The partial unique index: one active run for each workflow and key. */
  predicate OneActive(runs: Runs) {
    forall i, j | i in runs && j in runs && i != j && Active(runs[i]) && Active(runs[j]) :: !SameKey(runs[i], runs[j])
  }

  predicate IsActiveRun(runs: Runs, workflow: string, key: string, id: RunId) {
    id in runs && Active(runs[id]) && runs[id].workflow == workflow && runs[id].key == key
  }

  /** Load: the active run of a workflow and key, if there is one. */
  ghost function Loaded(runs: Runs, workflow: string, key: string): (r: Option<RunId>)
    ensures r.Some? ==> IsActiveRun(runs, workflow, key, r.value)
    ensures r.None? ==> forall id :: !IsActiveRun(runs, workflow, key, id)
  {
    if exists id :: IsActiveRun(runs, workflow, key, id)
    then var id :| IsActiveRun(runs, workflow, key, id); Some(id)
    else None
  }

  lemma LoadedIsTheOne(runs: Runs, workflow: string, key: string, id: RunId)
    requires OneActive(runs) && IsActiveRun(runs, workflow, key, id)
    ensures Loaded(runs, workflow, key) == Some(id)
  {
  }

  /** A primary key or active key clash is a unique violation. */
  predicate InsertClashes(runs: Runs, s: Snapshot) {
    s.runId in runs || (Active(s) && exists id | id in runs :: Active(runs[id]) && SameKey(runs[id], s))
  }

  /** The columns an UPDATE rewrites; the database raises the version itself. */
  function Stored(row: Snapshot, s: Snapshot): Snapshot {
    row.(status := s.status, suspendReason := s.suspendReason, cursor := s.cursor, state := s.state,
         attempts := s.attempts, lastError := s.lastError, version := row.version + 1,
         updatedAt := s.updatedAt, endedAt := s.endedAt)
  }

  /** Every column of a saved row: eight are the snapshot's, the version is raised, the other five stay. */
  ghost predicate Rewritten(before: Snapshot, s: Snapshot, after: Snapshot) {
    && after.status == s.status && after.suspendReason == s.suspendReason && after.cursor == s.cursor
    && after.state == s.state && after.attempts == s.attempts && after.lastError == s.lastError
    && after.updatedAt == s.updatedAt && after.endedAt == s.endedAt
    && after.version == before.version + 1
    && after.runId == before.runId && after.workflow == before.workflow && after.key == before.key
    && after.maxAttempts == before.maxAttempts && after.createdAt == before.createdAt
  }

  datatype SaveOutcome = Saved | VersionConflict | Rejected

  /** Compare and swap on the version. */
  function SaveResult(runs: Runs, s: Snapshot, expected: int): (SaveOutcome, Runs) {
    if s.runId !in runs || runs[s.runId].version != expected then (VersionConflict, runs)
    else
      var after := runs[s.runId := Stored(runs[s.runId], s)];
      if OneActive(after) then (Saved, after) else (Rejected, runs)
  }

  predicate IsSuspendedRun(runs: Runs, workflow: string, key: string, id: RunId) {
    id in runs && runs[id].status == RunSuspended && runs[id].workflow == workflow && runs[id].key == key
  }

  /** Why a stored document and a resume patch give no state to run on, if they give none. */
  ghost function Unusable<S>(codec: Codec<S>, stored: Json, resume: Option<Json>): Option<EngineError> {
    if codec.dec(stored).None? then Some(DecodeFailed)
    else if resume.None? then None
    else
      match MergePatch(stored, resume.value)
      case Err(why) => Some(MergeFailed(why))
      case Ok(document) => if codec.dec(document).None? then Some(DecodeFailed) else None
  }

  ghost function ResumedState<S>(codec: Codec<S>, stored: Json, resume: Option<Json>): S
    requires Unusable(codec, stored, resume).None?
  {
    codec.dec(if resume.None? then stored else MergePatch(stored, resume.value).value).value
  }

  // ---------- execute ----------

  /** How the engine's loop over the steps ends. */
  datatype LoopEnd<S> =
    | ErroredAt(i: nat, state: S, fault: Fault)
    | SuspendedAt(i: nat, state: S, suspend: Option<Suspension>)
    | FailedAt(i: nat, state: S)
    | Ended(state: S, last: Option<Suspension>)

  function ErrorState<S>(r: Outcome<S>, current: S): S {
    if r.out.status.Failed? then r.out.state else current
  }

  function RunFrom<S>(steps: seq<Step<S>>, i: nat, current: S, last: Option<Suspension>): LoopEnd<S>
    decreases |steps| - i
  {
    if i >= |steps| then Ended(current, last)
    else
      var r := steps[i].run(current);
      if r.err.Some? then ErroredAt(i, ErrorState(r, current), r.err.value)
      else if r.out.status.Suspended? then SuspendedAt(i, r.out.state, r.out.suspend)
      else if r.out.status.Failed? then FailedAt(i, r.out.state)
      else RunFrom(steps, i + 1, r.out.state, r.out.suspend)
  }

  /** A root that is no sequence runs as step 0; here a Failed status without an error counts as success. */
  function RunSingle<S>(step: Step<S>, state: S): LoopEnd<S> {
    var r := step.run(state);
    if r.err.Some? then ErroredAt(0, ErrorState(r, state), r.err.value)
    else if r.out.status.Suspended? then SuspendedAt(0, r.out.state, r.out.suspend)
    else Ended(r.out.state, r.out.suspend)
  }

  function EndOf<S>(root: Root<S>, state: S, cursor: nat): LoopEnd<S> {
    match root
    case SequenceRoot(steps) => RunFrom(steps, cursor, state, None)
    case SingleRoot(step) => RunSingle(step, state)
  }

  function StepIdAt<S>(root: Root<S>, i: nat): string {
    match root
    case SequenceRoot(steps) => if i < |steps| then steps[i].id else ""
    case SingleRoot(step) => step.id
  }

  /** What an execution wants to do: give up without saving, or save a snapshot and report. */
  datatype Plan<S> = Abort(error: EngineError) | Finish(snap: Snapshot, result: RunResult<S>, err: Option<EngineError>)

  /** A failed snapshot keeps its old state when the new one cannot be encoded. */
  function FailedSnap<S>(codec: Codec<S>, snap: Snapshot, state: S, why: EngineError, now: Time): Snapshot {
    snap.(status := RunFailed, lastError := Some(why), attempts := snap.attempts + 1,
          endedAt := Some(now), updatedAt := now,
          state := if codec.enc(state).Some? then codec.enc(state).value else snap.state)
  }

  function PlanOf<S>(def: Definition<S>, codec: Codec<S>, snap: Snapshot, state: S, cursor: nat, now: Time): Plan<S> {
    PlanAt(def, codec, snap, EndOf(def.root, state, cursor), now)
  }

  /** What the end of the loop writes into the snapshot and reports. */
  function PlanAt<S>(def: Definition<S>, codec: Codec<S>, snap: Snapshot, end: LoopEnd<S>, now: Time): Plan<S> {
    match end
    case ErroredAt(_, st, fault) =>
      Finish(FailedSnap(codec, snap, st, StepErrored(fault), now),
             RunResult(snap.runId, RunFailed, st, None), Some(StepErrored(fault)))
    case FailedAt(i, st) =>
      var why := StepFailed(StepIdAt(def.root, i));
      Finish(FailedSnap(codec, snap, st, why, now), RunResult(snap.runId, RunFailed, st, None), Some(why))
    case SuspendedAt(i, st, suspend) =>
      if codec.enc(st).None? && def.durable then Abort(EncodeFailed)
      else
        var saved := snap.(status := RunSuspended, cursor := i, updatedAt := now,
                           suspendReason := if suspend.Some? then Some(suspend.value.reason) else snap.suspendReason,
                           state := if codec.enc(st).Some? then codec.enc(st).value else snap.state);
        Finish(saved, RunResult(snap.runId, RunSuspended, st, suspend), None)
    case Ended(st, last) =>
      if codec.enc(st).None? && def.durable then Abort(EncodeFailed)
      else
        var saved := snap.(status := RunSucceeded, endedAt := Some(now), updatedAt := now,
                           state := if codec.enc(st).Some? then codec.enc(st).value else snap.state);
        Finish(saved, RunResult(snap.runId, RunSucceeded, st, last), None)
  }

  datatype Input = Continue | Patched(patch: Json)

  /** The state an execution of a loaded snapshot starts from. */
  function StateFor<S>(codec: Codec<S>, snap: Snapshot, input: Input): Result<S, EngineError> {
    match codec.dec(snap.state)
    case None => Err(DecodeFailed)
    case Some(st) =>
      match input
      case Continue => Ok(st)
      case Patched(p) =>
        match MergePatch(snap.state, p)
        case Err(e) => Err(MergeFailed(e))
        case Ok(merged) =>
          match codec.dec(merged)
          case None => Err(DecodeFailed)
          case Some(m) => Ok(m)
  }

  function PlanFor<S>(def: Definition<S>, codec: Codec<S>, snap: Snapshot, input: Input, now: Time): Plan<S> {
    match StateFor(codec, snap, input)
    case Err(e) => Abort(e)
    case Ok(st) => PlanOf(def, codec, snap, st, snap.cursor, now)
  }

  function FirstSnapshot<S>(def: Definition<S>, runId: RunId, key: string, state: Json, now: Time): Snapshot {
    Snapshot(runId, def.id, key, RunRunning, None, 0, state, 0,
             if def.maxAttempts <= 0 then 1 else def.maxAttempts, 1, None, now, now, None)
  }

  /** A call's effect on the store, its result and its error. */
  datatype Effect<S> = Effect(runs: Runs, result: RunResult<S>, err: Option<EngineError>)

  /** After losing the compare and swap the caller is told about whatever run is active now. */
  ghost function ResolveConflict<S>(runs: Runs, codec: Codec<S>, workflow: string, key: string)
    : (RunResult<S>, EngineError)
  {
    match Loaded(runs, workflow, key)
    case None => (NoResult, VersionConflictRunNotFound)
    case Some(id) =>
      match codec.dec(runs[id].state)
      case None => (NoResult, DecodeFailed)
      case Some(st) => (RunResult(runs[id].runId, runs[id].status, st, None), RunConflict)
  }

  ghost function ExecuteOn<S>(runs: Runs, def: Definition<S>, codec: Codec<S>, snap: Snapshot,
                              state: S, cursor: nat, now: Time): Effect<S>
  {
    match PlanOf(def, codec, snap, state, cursor, now)
    case Abort(e) => Effect(runs, NoResult, Some(e))
    case Finish(s, result, err) =>
      if !def.durable then Effect(runs, result, err)
      else
        match SaveResult(runs, s, s.version)
        case (Saved, after) => Effect(after, result, err)
        case (Rejected, _) => Effect(runs, NoResult, Some(SaveRejected))
        case (VersionConflict, _) =>
          var (r, e) := ResolveConflict(runs, codec, def.id, s.key);
          Effect(runs, r, Some(e))
  }

  ghost function ResumeOnConflict<S>(runs: Runs, def: Definition<S>, codec: Codec<S>, key: string, now: Time)
    : Effect<S>
  {
    match Loaded(runs, def.id, key)
    case None => Effect(runs, NoResult, Some(InsertConflictRunNotFound))
    case Some(id) =>
      match codec.dec(runs[id].state)
      case None => Effect(runs, NoResult, Some(DecodeFailed))
      case Some(st) =>
        var e := ExecuteOn(runs, def, codec, runs[id], st, runs[id].cursor, now);
        if e.err == Some(RunConflict) then e.(err := None) else e
  }

  ghost function StartOn<S>(runs: Runs, def: Definition<S>, codec: Codec<S>, key: string, initial: S,
                            newId: RunId, now: Time): Effect<S>
  {
    if !def.durable then
      ExecuteOn(runs, def, codec, FirstSnapshot(def, newId, key, JNull, now), initial, 0, now)
    else
      match codec.enc(initial)
      case None => Effect(runs, NoResult, Some(EncodeFailed))
      case Some(bytes) =>
        var snap := FirstSnapshot(def, newId, key, bytes, now);
        if Loaded(runs, def.id, key).Some? then Effect(runs, NoResult, Some(RunAlreadyExists))
        else if InsertClashes(runs, snap) then ResumeOnConflict(runs, def, codec, key, now)
        else ExecuteOn(runs[newId := snap], def, codec, snap, initial, 0, now)
  }

  function InputOf(resume: Option<Json>): Input {
    match resume
    case None => Continue
    case Some(p) => Patched(p)
  }

  ghost function ResumeOn<S>(runs: Runs, def: Definition<S>, codec: Codec<S>, key: string,
                             resume: Option<Json>, now: Time): Effect<S>
  {
    if !def.durable then Effect(runs, NoResult, None)
    else
      match Loaded(runs, def.id, key)
      case None => Effect(runs, NoResult, None)
      case Some(id) =>
        if !runs[id].status.RunSuspended? then Effect(runs, NoResult, None)
        else
          match StateFor(codec, runs[id], InputOf(resume))
          case Err(e) => Effect(runs, NoResult, Some(e))
          case Ok(st) => ExecuteOn(runs, def, codec, runs[id], st, runs[id].cursor, now)
  }

  /** The stored row has the version the snapshot was loaded with. */
  predicate Current(runs: Runs, snap: Snapshot) {
    snap.runId in runs && runs[snap.runId].version == snap.version
  }

  /** Who lost the compare and swap is told the active run's state as it is stored, or that there is none. */
  ghost predicate ToldOfConflict<S>(runs: Runs, codec: Codec<S>, workflow: string, key: string,
                                    result: RunResult<S>, err: Option<EngineError>)
  {
    if exists id :: IsActiveRun(runs, workflow, key, id) then
      exists id :: IsActiveRun(runs, workflow, key, id) &&
        match codec.dec(runs[id].state)
        case Some(st) => result == RunResult(runs[id].runId, runs[id].status, st, None) && err == Some(RunConflict)
        case None => result.NoResult? && err == Some(DecodeFailed)
    else result.NoResult? && err == Some(VersionConflictRunNotFound)
  }

  /** What an execution with this plan may do: save the plan's snapshot and report, or report and save nothing. */
  ghost predicate Executed<S>(runs: Runs, def: Definition<S>, codec: Codec<S>, snap: Snapshot, plan: Plan<S>,
                              e: Effect<S>)
  {
    if plan.Abort? then e == Effect(runs, NoResult, Some(plan.error))
    else if !def.durable then e == Effect(runs, plan.result, plan.err)
    else if !Current(runs, plan.snap) then
      e.runs == runs && ToldOfConflict(runs, codec, def.id, plan.snap.key, e.result, e.err)
    else
      var id := plan.snap.runId;
      Active(runs[id]) ==>
        && e.result == plan.result && e.err == plan.err
        && e.runs.Keys == runs.Keys && e.runs - {id} == runs - {id} && Rewritten(runs[id], plan.snap, e.runs[id])
  }

  lemma ExecuteCases<S>(runs: Runs, def: Definition<S>, codec: Codec<S>, snap: Snapshot, state: S, cursor: nat,
                        now: Time)
    requires OneActive(runs)
    ensures Executed(runs, def, codec, snap, PlanOf(def, codec, snap, state, cursor, now),
                     ExecuteOn(runs, def, codec, snap, state, cursor, now))
  {
    var plan := PlanOf(def, codec, snap, state, cursor, now);
    if plan.Finish? && Current(runs, plan.snap) && Active(runs[plan.snap.runId]) {
      var id := plan.snap.runId;
      EndingKeepsOneActive(runs, id, Stored(runs[id], plan.snap));
    }
  }

  /** The plan of an execution of a run's first snapshot keeps the run's identity. */
  lemma PlanKeepsIdentity<S>(def: Definition<S>, codec: Codec<S>, snap: Snapshot, state: S, cursor: nat, now: Time)
    ensures var p := PlanOf(def, codec, snap, state, cursor, now);
      if p.Abort? then p.error == EncodeFailed
      else
        && p.snap.runId == snap.runId && p.snap.workflow == snap.workflow && p.snap.key == snap.key
        && p.snap.version == snap.version && p.snap.createdAt == snap.createdAt
        && p.snap.maxAttempts == snap.maxAttempts
        && p.result.RunResult? && p.result.runId == snap.runId && p.result.status == p.snap.status
  {
  }

  /** A Start that finds its key free inserts the run's row and touches no other. */
  ghost predicate RunOpened<S>(runs: Runs, def: Definition<S>, codec: Codec<S>, key: string, initial: S, newId: RunId,
                               now: Time, e: Effect<S>)
    requires codec.enc(initial).Some?
  {
    var first := Snapshot(newId, def.id, key, RunRunning, None, 0, codec.enc(initial).value, 0,
                          if def.maxAttempts <= 0 then 1 else def.maxAttempts, 1, None, now, now, None);
    && Executed(runs[newId := first], def, codec, first, PlanOf(def, codec, first, initial, 0, now), e)
    && newId in e.runs && e.runs - {newId} == runs && SameKey(e.runs[newId], first)
    && e.runs[newId].createdAt == now && e.runs[newId].maxAttempts == first.maxAttempts
    && (if e.result.NoResult? then e.err == Some(EncodeFailed) && e.runs[newId] == first
        else e.result.runId == newId && e.runs[newId].version == 2 && e.runs[newId].status == e.result.status)
  }

  lemma InsertOnFreeKey<S>(runs: Runs, def: Definition<S>, codec: Codec<S>, key: string, initial: S, newId: RunId,
                           now: Time)
    requires OneActive(runs) && def.durable && codec.enc(initial).Some? && newId !in runs
    requires forall id :: !IsActiveRun(runs, def.id, key, id)
    ensures var first := FirstSnapshot(def, newId, key, codec.enc(initial).value, now);
      && OneActive(runs[newId := first])
      && StartOn(runs, def, codec, key, initial, newId, now)
         == ExecuteOn(runs[newId := first], def, codec, first, initial, 0, now)
  {
    assert forall id | id in runs :: !IsActiveRun(runs, def.id, key, id);
  }

  lemma StartOnFreeKey<S>(runs: Runs, def: Definition<S>, codec: Codec<S>, key: string, initial: S, newId: RunId,
                          now: Time)
    requires OneActive(runs) && def.durable && codec.enc(initial).Some? && newId !in runs
    requires forall id :: !IsActiveRun(runs, def.id, key, id)
    ensures RunOpened(runs, def, codec, key, initial, newId, now,
                      StartOn(runs, def, codec, key, initial, newId, now))
  {
    var first := FirstSnapshot(def, newId, key, codec.enc(initial).value, now);
    InsertOnFreeKey(runs, def, codec, key, initial, newId, now);
    PlanKeepsIdentity(def, codec, first, initial, 0, now);
    ExecuteCases(runs[newId := first], def, codec, first, initial, 0, now);
  }

  /** A suspended run is executed again from the step that suspended, on its patched state, or the call says why not. */
  ghost predicate ResumeExecutes<S>(runs: Runs, def: Definition<S>, codec: Codec<S>, snap: Snapshot,
                                    resume: Option<Json>, now: Time, e: Effect<S>)
  {
    var why := Unusable(codec, snap.state, resume);
    if why.Some? then e == Effect(runs, NoResult, why)
    else
      var state := ResumedState(codec, snap.state, resume);
      Executed(runs, def, codec, snap, PlanOf(def, codec, snap, state, snap.cursor, now), e)
  }

  lemma ResumeCases<S>(runs: Runs, def: Definition<S>, codec: Codec<S>, key: string, resume: Option<Json>,
                            now: Time)
    requires OneActive(runs)
    ensures !def.durable || (forall id :: !IsSuspendedRun(runs, def.id, key, id)) ==>
      ResumeOn(runs, def, codec, key, resume, now) == Effect(runs, NoResult, None)
    ensures forall id | def.durable && IsSuspendedRun(runs, def.id, key, id) ::
      ResumeExecutes(runs, def, codec, runs[id], resume, now, ResumeOn(runs, def, codec, key, resume, now))
  {
    forall id: RunId | IsSuspendedRun(runs, def.id, key, id)
      ensures Loaded(runs, def.id, key) == Some(id)
    {
      LoadedIsTheOne(runs, def.id, key, id);
    }
    match Loaded(runs, def.id, key)
    case None =>
    case Some(id) =>
      assert runs[id].status.RunSuspended? ==> IsSuspendedRun(runs, def.id, key, id);
      if def.durable && runs[id].status.RunSuspended? && Unusable(codec, runs[id].state, resume).None? {
        ExecuteCases(runs, def, codec, runs[id], ResumedState(codec, runs[id].state, resume), runs[id].cursor, now);
      }
  }

  // ---------- the objects ----------

  class Store {
    var runs: Runs

    constructor ()
      ensures runs == map[]
    {
      runs := map[];
    }

    method Insert(s: Snapshot) returns (ok: bool)
      modifies this
      ensures ok <==> !InsertClashes(old(runs), s)
      ensures ok <==> s.runId !in old(runs) && (Active(s) ==> Loaded(old(runs), s.workflow, s.key).None?)
      ensures runs == if ok then old(runs)[s.runId := s] else old(runs)
      ensures OneActive(old(runs)) ==> OneActive(runs)
    {
      assert forall id | id in runs ::
        IsActiveRun(runs, s.workflow, s.key, id) <==> Active(runs[id]) && SameKey(runs[id], s);
      ok := !InsertClashes(runs, s);
      if ok {
        runs := runs[s.runId := s];
      }
    }

    method Load(workflow: string, key: string) returns (r: Option<Snapshot>)
      requires OneActive(runs)
      ensures r == match Loaded(runs, workflow, key) case None => None case Some(id) => Some(runs[id])
      ensures r.Some? ==>
        && r.value.workflow == workflow && r.value.key == key && r.value.status in {RunRunning, RunSuspended}
        && exists id :: id in runs && runs[id] == r.value
      ensures r.None? ==> forall id | id in runs && runs[id].workflow == workflow && runs[id].key == key ::
        runs[id].status in {RunSucceeded, RunFailed}
    {
      var todo := runs.Keys;
      while todo != {}
        invariant todo <= runs.Keys
        invariant forall id | id in runs && id !in todo :: !IsActiveRun(runs, workflow, key, id)
        decreases todo
      {
        var id :| id in todo;
        if IsActiveRun(runs, workflow, key, id) {
          LoadedIsTheOne(runs, workflow, key, id);
          return Some(runs[id]);
        }
        todo := todo - {id};
      }
      r := None;
    }

    method Save(s: Snapshot, expected: int) returns (o: SaveOutcome)
      modifies this
      ensures (o, runs) == SaveResult(old(runs), s, expected)
      ensures !o.Saved? ==> runs == old(runs)
      ensures o.VersionConflict? <==> s.runId !in old(runs) || old(runs)[s.runId].version != expected
      ensures o.Saved? ==>
        && s.runId in runs && runs.Keys == old(runs).Keys && runs - {s.runId} == old(runs) - {s.runId}
        && Rewritten(old(runs)[s.runId], s, runs[s.runId]) && runs[s.runId].version == expected + 1
      ensures OneActive(old(runs)) ==> OneActive(runs)
      ensures OneActive(old(runs)) && s.runId in old(runs) && Active(old(runs)[s.runId]) ==> !o.Rejected?
    {
      if s.runId !in runs || runs[s.runId].version != expected {
        return VersionConflict;
      }
      if OneActive(runs) && Active(runs[s.runId]) {
        EndingKeepsOneActive(runs, s.runId, Stored(runs[s.runId], s));
      }
      var after := runs[s.runId := Stored(runs[s.runId], s)];
      if !OneActive(after) {
        return Rejected;
      }
      runs := after;
      o := Saved;
    }

    /** Suspended runs of a workflow not touched since the cutoff, at most `limit` of them, oldest first. */
    method ListSuspended(workflow: string, before: Time, limit: nat) returns (ids: seq<RunId>)
      ensures |ids| <= limit
      ensures forall id | id in ids :: id in runs && IsStale(runs, workflow, before, id)
      ensures forall id | id in ids ::
        runs[id].workflow == workflow && runs[id].status == RunSuspended && runs[id].updatedAt < before
      ensures |ids| < limit ==> forall id | id in runs :: id in ids <==>
        runs[id].workflow == workflow && runs[id].status == RunSuspended && runs[id].updatedAt < before
      ensures forall m, n | 0 <= m < n < |ids| && ids[m] in ids && ids[n] in ids ::
        ids[m] != ids[n] && runs[ids[m]].updatedAt <= runs[ids[n]].updatedAt
      ensures forall id | IsStale(runs, workflow, before, id) && id !in ids ::
        |ids| == limit && forall k | k in ids :: runs[k].updatedAt <= runs[id].updatedAt
    {
      var rest := set id | id in runs && IsStale(runs, workflow, before, id);
      ids := [];
      while |ids| < limit && rest != {}
        invariant |ids| <= limit && rest <= runs.Keys
        invariant forall id :: IsStale(runs, workflow, before, id) <==> id in rest || id in ids
        invariant forall id | id in ids :: id !in rest
        invariant forall m, n | 0 <= m < n < |ids| ::
          ids[m] != ids[n] && runs[ids[m]].updatedAt <= runs[ids[n]].updatedAt
        invariant forall k, id | k in ids && id in rest :: runs[k].updatedAt <= runs[id].updatedAt
        decreases rest
      {
        var oldest := Stalest(runs, rest);
        rest := rest - {oldest};
        ids := ids + [oldest];
      }
    }
  }

  predicate IsStale(runs: Runs, workflow: string, before: Time, id: RunId) {
    id in runs && runs[id].workflow == workflow && runs[id].status.RunSuspended? && runs[id].updatedAt < before
  }

  method Stalest(runs: Runs, ids: set<RunId>) returns (first: RunId)
    requires ids != {} && ids <= runs.Keys
    ensures first in ids && forall id | id in ids :: runs[first].updatedAt <= runs[id].updatedAt
  {
    first :| first in ids;
    var rest := ids - {first};
    while rest != {}
      invariant rest <= ids && first in ids
      invariant forall id | id in ids && id !in rest :: runs[first].updatedAt <= runs[id].updatedAt
      decreases rest
    {
      var id :| id in rest;
      if runs[id].updatedAt < runs[first].updatedAt {
        first := id;
      }
      rest := rest - {id};
    }
  }

  class Engine<S> {
    const store: Store
    const codec: Codec<S>

    constructor (store: Store, codec: Codec<S>)
      ensures this.store == store && this.codec == codec
    {
      this.store, this.codec := store, codec;
    }

    /** The loop of execute over a sequence's steps. */
    method RunLoop(steps: seq<Step<S>>, cursor: nat, state: S) returns (end: LoopEnd<S>)
      ensures end == RunFrom(steps, cursor, state, None)
    {
      var current, last := state, None;
      var i := cursor;
      while i < |steps|
        invariant RunFrom(steps, cursor, state, None) == RunFrom(steps, i, current, last)
        decreases |steps| - i
      {
        var r := steps[i].run(current);
        if r.err.Some? {
          if r.out.status.Failed? {
            current := r.out.state;
          }
          return ErroredAt(i, current, r.err.value);
        }
        current, last := r.out.state, r.out.suspend;
        if r.out.status.Suspended? {
          return SuspendedAt(i, current, r.out.suspend);
        }
        if r.out.status.Failed? {
          return FailedAt(i, current);
        }
        i := i + 1;
      }
      end := Ended(current, last);
    }

    method Execute(def: Definition<S>, snap: Snapshot, state: S, cursor: nat, now: Time)
      returns (result: RunResult<S>, err: Option<EngineError>)
      requires OneActive(store.runs)
      modifies store
      ensures OneActive(store.runs)
      ensures Effect(store.runs, result, err) == ExecuteOn(old(store.runs), def, codec, snap, state, cursor, now)
      ensures Executed(old(store.runs), def, codec, snap, PlanOf(def, codec, snap, state, cursor, now),
                       Effect(store.runs, result, err))
    {
      ExecuteCases(store.runs, def, codec, snap, state, cursor, now);
      var end;
      match def.root {
        case SequenceRoot(steps) => end := RunLoop(steps, cursor, state);
        case SingleRoot(step) => end := RunSingle(step, state);
      }
      var plan := PlanAt(def, codec, snap, end, now);
      match plan {
        case Abort(e) => return NoResult, Some(e);
        case Finish(s, r, e) =>
          if !def.durable {
            return r, e;
          }
          var o := store.Save(s, s.version);
          match o {
            case Saved => return r, e;
            case Rejected => return NoResult, Some(SaveRejected);
            case VersionConflict =>
              var latest := store.Load(def.id, s.key);
              match latest {
                case None => return NoResult, Some(VersionConflictRunNotFound);
                case Some(l) =>
                  match codec.dec(l.state) {
                    case None => return NoResult, Some(DecodeFailed);
                    case Some(st) => return RunResult(l.runId, l.status, st, None), Some(RunConflict);
                  }
              }
          }
      }
    }

    method Start(def: Definition<S>, key: string, initial: S, newId: RunId, now: Time)
      returns (result: RunResult<S>, err: Option<EngineError>)
      requires OneActive(store.runs)
      modifies store
      ensures OneActive(store.runs)
      ensures Effect(store.runs, result, err) == StartOn(old(store.runs), def, codec, key, initial, newId, now)
      ensures !def.durable ==> store.runs == old(store.runs)
      ensures def.durable && codec.enc(initial).None? ==>
        result.NoResult? && err == Some(EncodeFailed) && store.runs == old(store.runs)
      ensures (def.durable && codec.enc(initial).Some? &&
               exists id :: IsActiveRun(old(store.runs), def.id, key, id)) ==>
        result.NoResult? && err == Some(RunAlreadyExists) && store.runs == old(store.runs)
      ensures (def.durable && codec.enc(initial).Some? && newId !in old(store.runs) &&
               forall id :: !IsActiveRun(old(store.runs), def.id, key, id)) ==>
        RunOpened(old(store.runs), def, codec, key, initial, newId, now, Effect(store.runs, result, err))
    {
      if def.durable && codec.enc(initial).Some? && newId !in store.runs && Loaded(store.runs, def.id, key).None? {
        StartOnFreeKey(store.runs, def, codec, key, initial, newId, now);
      }
      if !def.durable {
        result, err := Execute(def, FirstSnapshot(def, newId, key, JNull, now), initial, 0, now);
        return;
      }
      match codec.enc(initial) {
        case None => return NoResult, Some(EncodeFailed);
        case Some(bytes) =>
          var snap := FirstSnapshot(def, newId, key, bytes, now);
          var existing := store.Load(def.id, key);
          if existing.Some? {
            return NoResult, Some(RunAlreadyExists);
          }
          var ok := store.Insert(snap);
          if !ok {
            result, err := StartConflict(def, key, now);
            return;
          }
          result, err := Execute(def, snap, initial, 0, now);
      }
    }

    /** resumeOnConflict: join the run that won the insert; losing again is not an error. */
    method StartConflict(def: Definition<S>, key: string, now: Time)
      returns (result: RunResult<S>, err: Option<EngineError>)
      requires OneActive(store.runs)
      modifies store
      ensures OneActive(store.runs)
      ensures Effect(store.runs, result, err) == ResumeOnConflict(old(store.runs), def, codec, key, now)
      ensures (forall id :: !IsActiveRun(old(store.runs), def.id, key, id)) ==>
        result.NoResult? && err == Some(InsertConflictRunNotFound) && store.runs == old(store.runs)
      ensures forall id | IsActiveRun(old(store.runs), def.id, key, id) && codec.dec(old(store.runs)[id].state).None? ::
        result.NoResult? && err == Some(DecodeFailed) && store.runs == old(store.runs)
      ensures err != Some(RunConflict)
    {
      var existing := store.Load(def.id, key);
      match existing {
        case None => return NoResult, Some(InsertConflictRunNotFound);
        case Some(e) =>
          match codec.dec(e.state) {
            case None => return NoResult, Some(DecodeFailed);
            case Some(st) =>
              result, err := Execute(def, e, st, e.cursor, now);
              if err == Some(RunConflict) {
                err := None;
              }
          }
      }
    }

    method Resume(def: Definition<S>, key: string, resume: Option<Json>, now: Time)
      returns (result: RunResult<S>, err: Option<EngineError>)
      requires OneActive(store.runs)
      modifies store
      ensures OneActive(store.runs)
      ensures Effect(store.runs, result, err) == ResumeOn(old(store.runs), def, codec, key, resume, now)
      ensures !def.durable || (forall id :: !IsSuspendedRun(old(store.runs), def.id, key, id)) ==>
        result.NoResult? && err.None? && store.runs == old(store.runs)
      ensures forall id | def.durable && IsSuspendedRun(old(store.runs), def.id, key, id) ::
        ResumeExecutes(old(store.runs), def, codec, old(store.runs)[id], resume, now, Effect(store.runs, result, err))
    {
      ResumeCases(store.runs, def, codec, key, resume, now);
      if !def.durable {
        return NoResult, None;
      }
      var found := store.Load(def.id, key);
      match found {
        case None => return NoResult, None;
        case Some(snap) =>
          if !snap.status.RunSuspended? {
            return NoResult, None;
          }
          match StateFor(codec, snap, InputOf(resume)) {
            case Err(e) => return NoResult, Some(e);
            case Ok(st) => result, err := Execute(def, snap, st, snap.cursor, now);
          }
      }
    }
  }

  // ---------- the stale run reaper ----------

  function ReapedSnap(s: Snapshot, now: Time): Snapshot {
    s.(status := RunFailed, endedAt := Some(now), lastError := Some(Reaped))
  }

  /** The store after the first n listed runs were failed. */
  ghost function ReapedUpTo(runs: Runs, ids: seq<RunId>, now: Time, n: nat): Runs
    requires n <= |ids| && forall m | 0 <= m < |ids| :: ids[m] in runs
  {
    if n == 0 then runs
    else ReapedUpTo(runs, ids, now, n - 1)[ids[n - 1] := Stored(runs[ids[n - 1]], ReapedSnap(runs[ids[n - 1]], now))]
  }

  predicate DistinctRuns(runs: Runs, ids: seq<RunId>) {
    && (forall m | 0 <= m < |ids| :: ids[m] in runs)
    && forall m, n | 0 <= m < n < |ids| :: ids[m] != ids[n]
  }

  lemma {:induction false} NotYetReaped(runs: Runs, ids: seq<RunId>, now: Time, n: nat, m: nat)
    requires DistinctRuns(runs, ids) && n <= m < |ids|
    ensures ids[m] in ReapedUpTo(runs, ids, now, n) && ReapedUpTo(runs, ids, now, n)[ids[m]] == runs[ids[m]]
  {
    if n > 0 {
      NotYetReaped(runs, ids, now, n - 1, m);
    }
  }

  lemma {:induction false} ReapedAt(runs: Runs, ids: seq<RunId>, now: Time, n: nat)
    requires DistinctRuns(runs, ids) && n <= |ids|
    ensures var r := ReapedUpTo(runs, ids, now, n);
      && r.Keys == runs.Keys
      && (forall m | 0 <= m < n :: r[ids[m]] == Stored(runs[ids[m]], ReapedSnap(runs[ids[m]], now)))
      && (forall id | id in runs && id !in ids :: r[id] == runs[id])
  {
    if n > 0 {
      ReapedAt(runs, ids, now, n - 1);
    }
  }

  /** One turn of the reaper's loop. */
  method ReapOne(store: Store, snap: Snapshot, now: Time, ghost before: Runs, ghost ids: seq<RunId>, ghost n: nat)
    returns (ok: bool)
    requires DistinctRuns(before, ids) && n < |ids| && snap == before[ids[n]] && snap.runId == ids[n]
    requires store.runs == ReapedUpTo(before, ids, now, n) && OneActive(store.runs)
    modifies store
    ensures ok && OneActive(store.runs) && store.runs == ReapedUpTo(before, ids, now, n + 1)
  {
    NotYetReaped(before, ids, now, n, n);
    EndingKeepsOneActive(store.runs, ids[n], Stored(store.runs[ids[n]], ReapedSnap(snap, now)));
    var o := store.Save(ReapedSnap(snap, now), snap.version);
    ok := o.Saved?;
  }

  /** Reap on an undisturbed store fails exactly the listed runs and leaves the rest as they were. */
  method Reap(store: Store, workflow: string, now: Time, maxAge: int, batch: nat)
    returns (count: nat, ghost listed: seq<RunId>)
    requires OneActive(store.runs) && forall id | id in store.runs :: store.runs[id].runId == id
    modifies store
    ensures OneActive(store.runs) && store.runs.Keys == old(store.runs).Keys
    ensures count == |listed| <= batch
    ensures forall id | id in listed ::
      && id in old(store.runs) && old(store.runs)[id].workflow == workflow && old(store.runs)[id].status == RunSuspended
      && old(store.runs)[id].updatedAt < now - maxAge
      && store.runs[id] == old(store.runs)[id].(status := RunFailed, endedAt := Some(now), lastError := Some(Reaped),
                                                version := old(store.runs)[id].version + 1)
    ensures forall id | id in store.runs && id !in listed :: store.runs[id] == old(store.runs)[id]
    ensures |listed| < batch ==> forall id | id in old(store.runs) && id !in listed ::
      old(store.runs)[id].workflow == workflow && old(store.runs)[id].status == RunSuspended ==>
        old(store.runs)[id].updatedAt >= now - maxAge
  {
    var ids := store.ListSuspended(workflow, now - maxAge, batch);
    listed := ids;
    ghost var before := store.runs;
    var snaps := store.runs;
    forall m, n | 0 <= m < n < |ids|
      ensures ids[m] != ids[n]
    {
      assert ids[m] in ids && ids[n] in ids;
    }
    assert forall m | 0 <= m < |ids| :: ids[m] in ids;
    count := ReapLoop(store, ids, snaps, now);
    ReapedAt(before, ids, now, |ids|);
  }

  method ReapLoop(store: Store, ids: seq<RunId>, snaps: Runs, now: Time) returns (count: nat)
    requires snaps == store.runs && DistinctRuns(snaps, ids) && OneActive(snaps)
    requires forall id | id in snaps :: snaps[id].runId == id
    modifies store
    ensures OneActive(store.runs) && store.runs == ReapedUpTo(snaps, ids, now, |ids|) && count == |ids|
  {
    count := 0;
    var i := 0;
    while i < |ids|
      invariant i <= |ids| && count == i
      invariant OneActive(store.runs) && store.runs == ReapedUpTo(snaps, ids, now, i)
    {
      var ok := ReapOne(store, snaps[ids[i]], now, snaps, ids, i);
      if ok {
        count := count + 1;
      }
      i := i + 1;
    }
  }

  lemma EndingKeepsOneActive(runs: Runs, id: RunId, s: Snapshot)
    requires OneActive(runs) && id in runs
    requires Active(s) ==> Active(runs[id]) && SameKey(s, runs[id])
    ensures OneActive(runs[id := s])
  {
  }
}
