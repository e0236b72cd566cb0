/**
 Durable execution means the same as running in memory: the engine with its
 store, versions and cursors refines an interpreter that keeps the state and
 the steps still to run.
 */
module WorkflowRefinement {
  import opened Wrappers
  import opened JsonMerge
  import opened WorkflowSteps
  import opened WorkflowEngine

  // ---------- the in-memory interpreter ----------

  /**
   rest starts with the step that suspended or failed; it is empty when all have
   run.  suspend and err are what the caller is handed.
   */
  datatype Mem<!S> = Mem(status: RunStatus, state: S, rest: seq<Step<S>>, suspend: Option<Suspension>,
                         err: Option<EngineError>)

  function Interp<S>(rest: seq<Step<S>>, state: S, last: Option<Suspension>): Mem<S>
    decreases |rest|
  {
    if rest == [] then Mem(RunSucceeded, state, [], last, None)
    else
      var r := rest[0].run(state);
      if r.err.Some? then
        Mem(RunFailed, if r.out.status.Failed? then r.out.state else state, rest, None, Some(StepErrored(r.err.value)))
      else if r.out.status.Suspended? then Mem(RunSuspended, r.out.state, rest, r.out.suspend, None)
      else if r.out.status.Failed? then Mem(RunFailed, r.out.state, rest, None, Some(StepFailed(rest[0].id)))
      else Interp(rest[1..], r.out.state, r.out.suspend)
  }

  /** The state after the resume patch, if it decodes. */
  function MergedState<S>(codec: Codec<S>, state: S, resume: Option<Json>): Option<S> {
    match resume
    case None => Some(state)
    case Some(p) =>
      match codec.enc(state)
      case None => None
      case Some(bytes) =>
        match MergePatch(bytes, p)
        case Err(_) => None
        case Ok(merged) => codec.dec(merged)
  }

  /** Merge the patch at the suspension and rerun only the suspended step and those after it. */
  function InterpResume<S>(codec: Codec<S>, m: Mem<S>, resume: Option<Json>): Mem<S> {
    if !m.status.RunSuspended? then m
    else
      match MergedState(codec, m.state, resume)
      case None => m
      case Some(st) => Interp(m.rest, st, None)
  }

  function InterpSession<S>(codec: Codec<S>, steps: seq<Step<S>>, initial: S, resumes: seq<Option<Json>>): Mem<S>
    decreases |resumes|
  {
    if resumes == [] then Interp(steps, initial, None)
    else
      var n := |resumes| - 1;
      InterpResume(codec, InterpSession(codec, steps, initial, resumes[..n]), resumes[n])
  }

  // ---------- the engine doing the same ----------

  /** Start, then one Resume for each element; call n happens at now(n). */
  ghost function Session<S>(runs: Runs, def: Definition<S>, codec: Codec<S>, key: string, initial: S, newId: RunId,
                            resumes: seq<Option<Json>>, now: nat -> Time): Effect<S>
    decreases |resumes|
  {
    if resumes == [] then StartOn(runs, def, codec, key, initial, newId, now(0))
    else
      var n := |resumes| - 1;
      var before := Session(runs, def, codec, key, initial, newId, resumes[..n], now);
      ResumeOn(before.runs, def, codec, key, resumes[n], now(n + 1))
  }

  /** Every state encodes, and decoding gives it back. */
  ghost predicate RoundTrips<S(!new)>(codec: Codec<S>) {
    forall s: S :: codec.enc(s).Some? && codec.dec(codec.enc(s).value) == Some(s)
  }

  ghost predicate Represents<S>(codec: Codec<S>, steps: seq<Step<S>>, s: Snapshot, m: Mem<S>) {
    && s.status == m.status
    && codec.dec(s.state) == Some(m.state)
    && codec.enc(m.state) == Some(s.state)
    && (m.status.RunSuspended? ==> s.cursor < |steps| && steps[s.cursor..] == m.rest)
    && (s.endedAt.Some? <==> !Active(s))
    && (m.status.RunFailed? ==> s.lastError == m.err && m.err.Some?)
    && (m.status.RunSuspended? && m.suspend.Some? ==> s.suspendReason == Some(m.suspend.value.reason))
  }

  /** The loop over indices is the interpreter on the remaining steps. */
  lemma {:induction false} LoopIsInterp<S>(steps: seq<Step<S>>, i: nat, state: S, last: Option<Suspension>)
    requires i <= |steps|
    ensures var m := Interp(steps[i..], state, last);
      match RunFrom(steps, i, state, last)
      case ErroredAt(j, st, fault) =>
        i <= j < |steps| && m == Mem(RunFailed, st, steps[j..], None, Some(StepErrored(fault)))
      case SuspendedAt(j, st, suspend) => i <= j < |steps| && m == Mem(RunSuspended, st, steps[j..], suspend, None)
      case FailedAt(j, st) =>
        i <= j < |steps| && m == Mem(RunFailed, st, steps[j..], None, Some(StepFailed(steps[j].id)))
      case Ended(st, suspend) => m == Mem(RunSucceeded, st, [], suspend, None)
    decreases |steps| - i
  {
    if i < |steps| {
      var r := steps[i].run(state);
      assert steps[i..][0] == steps[i] && steps[i..][1..] == steps[i + 1..];
      LoopIsInterp(steps, i + 1, r.out.state, r.out.suspend);
    }
  }

  /** A plan that reports and saves what the interpreter computed, or gives up because that cannot be encoded. */
  ghost predicate PlanMeans<S>(def: Definition<S>, codec: Codec<S>, steps: seq<Step<S>>, snap: Snapshot, m: Mem<S>,
                               now: Time, p: Plan<S>)
  {
    if def.durable && codec.enc(m.state).None? && !m.status.RunFailed? then p == Abort(EncodeFailed)
    else
      && p.Finish? && p.result == RunResult(snap.runId, m.status, m.state, m.suspend) && p.err == m.err
      && p.snap.status == m.status && p.snap.updatedAt == now
      && p.snap.state == (if codec.enc(m.state).Some? then codec.enc(m.state).value else snap.state)
      && p.snap.attempts == snap.attempts + (if m.status.RunFailed? then 1 else 0)
      && p.snap.lastError == (if m.status.RunFailed? then m.err else snap.lastError)
      && p.snap.endedAt == (if m.status.RunSuspended? then snap.endedAt else Some(now))
      && (if m.status.RunSuspended? then p.snap.cursor < |steps| && steps[p.snap.cursor..] == m.rest
          else p.snap.cursor == snap.cursor)
      && p.snap.suspendReason == (if m.status.RunSuspended? && m.suspend.Some? then Some(m.suspend.value.reason)
                                  else snap.suspendReason)
      && p.snap.runId == snap.runId && SameKey(p.snap, snap) && p.snap.version == snap.version
      && p.snap.createdAt == snap.createdAt && p.snap.maxAttempts == snap.maxAttempts
  }

  /** With any codec and any snapshot, what an execution of a sequence plans is the interpreter's outcome. */
  lemma PlanIsInterp<S>(def: Definition<S>, codec: Codec<S>, steps: seq<Step<S>>, snap: Snapshot, state: S, now: Time)
    requires def.root == SequenceRoot(steps) && snap.cursor <= |steps|
    ensures PlanMeans(def, codec, steps, snap, Interp(steps[snap.cursor..], state, None), now,
                      PlanOf(def, codec, snap, state, snap.cursor, now))
  {
    LoopIsInterp(steps, snap.cursor, state, None);
  }

  /** An execution that is not durable touches no store and reports the interpreter's outcome, whatever the codec. */
  lemma InMemoryStart<S>(runs: Runs, def: Definition<S>, codec: Codec<S>, steps: seq<Step<S>>, key: string, initial: S,
                         newId: RunId, now: Time)
    requires !def.durable && def.root == SequenceRoot(steps)
    ensures var m := Interp(steps, initial, None);
      StartOn(runs, def, codec, key, initial, newId, now)
      == Effect(runs, RunResult(newId, m.status, m.state, m.suspend), m.err)
  {
    assert steps[0..] == steps;
    PlanIsInterp(def, codec, steps, FirstSnapshot(def, newId, key, JNull, now), initial, now);
  }

  /** Executing a stored active run replaces its snapshot by one that represents the interpreter's outcome. */
  lemma ExecuteRefines<S(!new)>(runs: Runs, def: Definition<S>, codec: Codec<S>, steps: seq<Step<S>>, id: RunId,
                                state: S, now: Time)
    requires def.durable && def.root == SequenceRoot(steps) && RoundTrips(codec) && OneActive(runs)
    requires id in runs && runs[id].runId == id && Active(runs[id]) && runs[id].endedAt.None?
    requires runs[id].cursor <= |steps|
    ensures var e := ExecuteOn(runs, def, codec, runs[id], state, runs[id].cursor, now);
      var m := Interp(steps[runs[id].cursor..], state, None);
      && OneActive(e.runs) && id in e.runs && e.runs == runs[id := e.runs[id]]
      && Advances(runs[id], e.runs[id], m, now)
      && Represents(codec, steps, e.runs[id], m)
      && Reports(e, m, id)
  {
    var snap := runs[id];
    PlanIsInterp(def, codec, steps, snap, state, now);
    var plan := PlanOf(def, codec, snap, state, snap.cursor, now);
    EndingKeepsOneActive(runs, id, Stored(snap, plan.snap));
  }

  /** What one committed execution does to the bookkeeping columns of its row. */
  ghost predicate Advances<S>(before: Snapshot, after: Snapshot, m: Mem<S>, now: Time) {
    && after.runId == before.runId && SameKey(after, before) && after.version == before.version + 1
    && after.createdAt == before.createdAt && after.maxAttempts == before.maxAttempts
    && after.attempts == before.attempts + (if m.status.RunFailed? then 1 else 0)
    && after.updatedAt == now && after.endedAt == (if m.status.RunSuspended? then None else Some(now))
  }

  ghost predicate NoOtherActive(runs: Runs, workflow: string, key: string, id: RunId) {
    forall other :: other != id ==> !IsActiveRun(runs, workflow, key, other)
  }

  ghost predicate InStep<S>(e: Effect<S>, m: Mem<S>, codec: Codec<S>, steps: seq<Step<S>>, def: Definition<S>,
                            key: string, id: RunId, runs: Runs)
  {
    && OneActive(e.runs) && id in e.runs && e.runs == runs[id := e.runs[id]]
    && e.runs[id].runId == id && e.runs[id].workflow == def.id && e.runs[id].key == key
    && NoOtherActive(e.runs, def.id, key, id)
    && Represents(codec, steps, e.runs[id], m)
  }

  /** The caller gets the interpreter's status, state and suspension, and its error when it failed. */
  ghost predicate Reports<S>(e: Effect<S>, m: Mem<S>, id: RunId) {
    e.result == RunResult(id, m.status, m.state, m.suspend) && e.err == m.err
  }

  /**
   A Resume of a suspended run whose patch can be applied reports the
   interpreter's outcome; with a patch that cannot be applied it reports why, and
   without a suspended run nothing.
   */
  ghost predicate ResumeReports<S>(e: Effect<S>, codec: Codec<S>, m: Mem<S>, resume: Option<Json>, id: RunId) {
    if m.status.RunSuspended? && MergedState(codec, m.state, resume).Some?
    then Reports(e, InterpResume(codec, m, resume), id)
    else
      && e.result.NoResult?
      && (if !m.status.RunSuspended? then e.err.None?
          else
            && resume.Some? && codec.enc(m.state).Some?
            && match MergePatch(codec.enc(m.state).value, resume.value)
               case Err(why) => e.err == Some(MergeFailed(why))
               case Ok(_) => e.err == Some(DecodeFailed))
  }

  lemma StartRefines<S(!new)>(runs: Runs, def: Definition<S>, codec: Codec<S>, steps: seq<Step<S>>, key: string,
                              initial: S, newId: RunId, now: Time)
    requires def.durable && def.root == SequenceRoot(steps) && RoundTrips(codec) && OneActive(runs)
    requires newId !in runs && Loaded(runs, def.id, key).None?
    ensures var e := StartOn(runs, def, codec, key, initial, newId, now);
      var m := Interp(steps, initial, None);
      && InStep(e, m, codec, steps, def, key, newId, runs) && Reports(e, m, newId)
      && Advances(FirstSnapshot(def, newId, key, codec.enc(initial).value, now), e.runs[newId], m, now)
  {
    var snap := FirstSnapshot(def, newId, key, codec.enc(initial).value, now);
    var inserted := runs[newId := snap];
    assert forall id | id in runs :: !IsActiveRun(runs, def.id, key, id);
    assert !InsertClashes(runs, snap);
    assert steps[0..] == steps;
    ExecuteRefines(inserted, def, codec, steps, newId, initial, now);
    var e := ExecuteOn(inserted, def, codec, snap, initial, 0, now);
    assert e.runs == runs[newId := e.runs[newId]];
  }

  /** A Start that lost the insert executes the run that won it, and reports that run's outcome without a conflict. */
  lemma JoinRefines<S(!new)>(runs: Runs, def: Definition<S>, codec: Codec<S>, steps: seq<Step<S>>, key: string,
                             id: RunId, now: Time)
    requires def.durable && def.root == SequenceRoot(steps) && RoundTrips(codec) && OneActive(runs)
    requires IsActiveRun(runs, def.id, key, id) && runs[id].runId == id && runs[id].endedAt.None?
    requires runs[id].cursor <= |steps| && codec.dec(runs[id].state).Some?
    ensures var e := ResumeOnConflict(runs, def, codec, key, now);
      var m := Interp(steps[runs[id].cursor..], codec.dec(runs[id].state).value, None);
      && OneActive(e.runs) && id in e.runs && e.runs == runs[id := e.runs[id]]
      && Advances(runs[id], e.runs[id], m, now) && Represents(codec, steps, e.runs[id], m) && Reports(e, m, id)
  {
    LoadedIsTheOne(runs, def.id, key, id);
    ExecuteRefines(runs, def, codec, steps, id, codec.dec(runs[id].state).value, now);
    PlanIsInterp(def, codec, steps, runs[id], codec.dec(runs[id].state).value, now);
    InterpErrs(steps[runs[id].cursor..], codec.dec(runs[id].state).value, None);
  }

  lemma {:induction false} InterpErrs<S>(rest: seq<Step<S>>, state: S, last: Option<Suspension>)
    ensures match Interp(rest, state, last).err
      case None => !Interp(rest, state, last).status.RunFailed?
      case Some(e) => Interp(rest, state, last).status.RunFailed? && (e.StepErrored? || e.StepFailed?)
    decreases |rest|
  {
    if rest != [] {
      InterpErrs(rest[1..], rest[0].run(state).out.state, rest[0].run(state).out.suspend);
    }
  }

  lemma ResumeRefines<S(!new)>(before: Effect<S>, m: Mem<S>, def: Definition<S>, codec: Codec<S>, steps: seq<Step<S>>,
                               key: string, id: RunId, runs: Runs, resume: Option<Json>, now: Time)
    requires def.durable && def.root == SequenceRoot(steps) && RoundTrips(codec)
    requires InStep(before, m, codec, steps, def, key, id, runs)
    requires !m.status.RunRunning?
    ensures var e := ResumeOn(before.runs, def, codec, key, resume, now);
      && InStep(e, InterpResume(codec, m, resume), codec, steps, def, key, id, runs)
      && ResumeReports(e, codec, m, resume, id)
  {
    if m.status.RunSuspended? {
      LoadedIsTheOne(before.runs, def.id, key, id);
      var snap := before.runs[id];
      match StateFor(codec, snap, InputOf(resume))
      case Err(_) =>
      case Ok(st) =>
        ExecuteRefines(before.runs, def, codec, steps, id, st, now);
        var e := ExecuteOn(before.runs, def, codec, snap, st, snap.cursor, now);
        assert e.runs == runs[id := e.runs[id]];
    }
  }

  lemma {:induction false} InterpNeverRunning<S>(rest: seq<Step<S>>, state: S, last: Option<Suspension>)
    ensures !Interp(rest, state, last).status.RunRunning?
    decreases |rest|
  {
    if rest != [] {
      InterpNeverRunning(rest[1..], rest[0].run(state).out.state, rest[0].run(state).out.suspend);
    }
  }

  lemma {:induction false} SessionNeverRunning<S>(codec: Codec<S>, steps: seq<Step<S>>, initial: S,
                                                  resumes: seq<Option<Json>>)
    ensures !InterpSession(codec, steps, initial, resumes).status.RunRunning?
    decreases |resumes|
  {
    InterpNeverRunning(steps, initial, None);
    if resumes != [] {
      var n := |resumes| - 1;
      SessionNeverRunning(codec, steps, initial, resumes[..n]);
      var m := InterpSession(codec, steps, initial, resumes[..n]);
      match MergedState(codec, m.state, resumes[n])
      case None =>
      case Some(st) => InterpNeverRunning(m.rest, st, None);
    }
  }

  /**
   Start followed by any resumes leaves in the store exactly what the
   interpreter computes: same status, state and error, and on suspension the
   same steps still to run.  No other run is touched.  The last call, and so every
   call of the session, hands its caller the interpreter's status, state,
   suspension and error.
   */
  lemma {:induction false} DurableRefinesInterpreter<S(!new)>(
    runs: Runs, def: Definition<S>, codec: Codec<S>, steps: seq<Step<S>>,
    key: string, initial: S, newId: RunId, resumes: seq<Option<Json>>, now: nat -> Time)
    requires def.durable && def.root == SequenceRoot(steps) && RoundTrips(codec) && OneActive(runs)
    requires newId !in runs && Loaded(runs, def.id, key).None?
    ensures InStep(Session(runs, def, codec, key, initial, newId, resumes, now),
                   InterpSession(codec, steps, initial, resumes), codec, steps, def, key, newId, runs)
    ensures var e := Session(runs, def, codec, key, initial, newId, resumes, now);
      if resumes == [] then Reports(e, Interp(steps, initial, None), newId)
      else
        var n := |resumes| - 1;
        ResumeReports(e, codec, InterpSession(codec, steps, initial, resumes[..n]), resumes[n], newId)
    decreases |resumes|
  {
    if resumes == [] {
      StartRefines(runs, def, codec, steps, key, initial, newId, now(0));
    } else {
      var n := |resumes| - 1;
      DurableRefinesInterpreter(runs, def, codec, steps, key, initial, newId, resumes[..n], now);
      SessionNeverRunning(codec, steps, initial, resumes[..n]);
      ResumeRefines(Session(runs, def, codec, key, initial, newId, resumes[..n], now),
                    InterpSession(codec, steps, initial, resumes[..n]), def, codec, steps, key, newId, runs,
                    resumes[n], now(n + 1));
    }
  }

  // ---------- the engine's loop and the Sequence combinator ----------

  /** Running steps i to j - 1, and what step j makes of the state they leave. */
  function Before<S>(steps: seq<Step<S>>, i: nat, j: nat, state: S): Outcome<S>
    requires i <= j <= |steps|
  {
    RunSequence(steps[i..j], state)
  }

  function At<S>(steps: seq<Step<S>>, i: nat, j: nat, state: S): Outcome<S>
    requires i <= j < |steps|
  {
    steps[j].run(Before(steps, i, j, state).out.state)
  }

  /** Steps i to j - 1 all run through. */
  predicate Reaches<S>(steps: seq<Step<S>>, i: nat, j: nat, state: S)
    requires i <= j <= |steps|
  {
    Before(steps, i, j, state).err.None? && Before(steps, i, j, state).out.status.Completed?
  }

  /**
   On the same steps the engine's loop and Sequence.Execute end at the same
   step, the first that stops, and the same way: with its error, or with its
   status, state and suspension.  On an error the engine keeps what the failing
   step returned if it also said Failed, and otherwise the state before it.
   */
  lemma {:induction false} EngineAgreesWithSequence<S>(steps: seq<Step<S>>, i: nat, state: S, last: Option<Suspension>)
    requires i <= |steps|
    ensures var r := RunSequence(steps[i..], state);
      match RunFrom(steps, i, state, last)
      case ErroredAt(j, kept, fault) =>
        && i <= j < |steps| && Reaches(steps, i, j, state)
        && var o, before := At(steps, i, j, state), Before(steps, i, j, state).out.state;
           && r == Outcome(StepOutput(before, Unset, None), Some(Within(steps[j].id, fault)))
           && o.err == Some(fault) && kept == if o.out.status.Failed? then o.out.state else before
      case SuspendedAt(j, st, suspend) =>
        && i <= j < |steps| && Reaches(steps, i, j, state)
        && r == At(steps, i, j, state) == Outcome(StepOutput(st, Suspended, suspend), None)
      case FailedAt(j, st) =>
        && i <= j < |steps| && Reaches(steps, i, j, state)
        && r == Outcome(StepOutput(st, Failed, None), None)
        && At(steps, i, j, state).err.None? && At(steps, i, j, state).out.status.Failed?
        && At(steps, i, j, state).out.state == st
      case Ended(st, suspend) =>
        && r == Outcome(StepOutput(st, Completed, None), None)
        && if i == |steps| then suspend == last
           else
             && Reaches(steps, i, |steps| - 1, state)
             && At(steps, i, |steps| - 1, state).out.state == st
             && At(steps, i, |steps| - 1, state).out.suspend == suspend
    decreases |steps| - i
  {
    if i < |steps| {
      var r := steps[i].run(state);
      assert steps[i..][0] == steps[i] && steps[i..][1..] == steps[i + 1..];
      if !Stops(r) {
        EngineAgreesWithSequence(steps, i + 1, r.out.state, r.out.suspend);
        forall j | i < j <= |steps|
          ensures Before(steps, i, j, state) == Before(steps, i + 1, j, r.out.state)
        {
          assert steps[i..j][0] == steps[i] && steps[i..j][1..] == steps[i + 1..j];
        }
      }
    }
  }

  /**
   The exception the engine makes: as the root itself, a step that returns
   Failed without an error succeeds; as the only step of a sequence it fails.
   */
  lemma FailedRootSucceeds<S>(def: Definition<S>, codec: Codec<S>, step: Step<S>, snap: Snapshot, state: S, now: Time)
    requires step.run(state).err.None? && codec.enc(step.run(state).out.state).Some?
    ensures var alone := PlanOf(def.(root := SingleRoot(step)), codec, snap, state, 0, now);
      var wrapped := PlanOf(def.(root := SequenceRoot([step])), codec, snap, state, 0, now);
      && alone.Finish? && wrapped.Finish?
      && (alone.snap.status == wrapped.snap.status <==> !step.run(state).out.status.Failed?)
      && (step.run(state).out.status.Failed? ==> alone.snap.status.RunSucceeded? && wrapped.snap.status.RunFailed?)
  {
    var r := step.run(state);
    assert RunFrom([step], 1, r.out.state, r.out.suspend) == Ended(r.out.state, r.out.suspend);
  }

  /** All that an execution of a root that is no sequence can plan. */
  lemma SingleRootOutcome<S>(def: Definition<S>, codec: Codec<S>, step: Step<S>, snap: Snapshot, state: S, cursor: nat,
                             now: Time)
    requires def.root == SingleRoot(step)
    ensures var r, p := step.run(state), PlanOf(def, codec, snap, state, cursor, now);
      if r.err.Some? then
        && p.Finish? && p.err == Some(StepErrored(r.err.value)) && p.snap.lastError == p.err
        && p.result ==
             RunResult(snap.runId, RunFailed, if r.out.status.Failed? then r.out.state else state, None)
        && p.snap.status == RunFailed && p.snap.endedAt == Some(now) && p.snap.attempts == snap.attempts + 1
      else if def.durable && codec.enc(r.out.state).None? then p == Abort(EncodeFailed)
      else
        && p.Finish? && p.err.None?
        && p.result == RunResult(snap.runId, if r.out.status.Suspended? then RunSuspended else RunSucceeded,
                                 r.out.state, r.out.suspend)
        && p.snap.status == p.result.status && p.snap.attempts == snap.attempts
        && (if r.out.status.Suspended? then p.snap.cursor == 0 && p.snap.endedAt == snap.endedAt
            else p.snap.endedAt == Some(now))
  {
  }

  // ---------- what a resume patch does to the state ----------

  /**
   The document a resumed run continues from: the patch's members that are
   neither null nor objects are in it as the user gave them, its nulls are gone,
   and what it does not mention is as stored.
   */
  ghost predicate PatchedDocument(stored: Json, patch: Json, document: Json)
    requires stored.JObject? && patch.JObject?
  {
    document.JObject? && forall k ::
      if k in patch.members then
        (patch.members[k].JNull? ==> k !in document.members) &&
        (!patch.members[k].JNull? && !patch.members[k].JObject? ==>
           k in document.members && document.members[k] == patch.members[k])
      else Lookup(document.members, k) == Lookup(stored.members, k)
  }

  /** The engine runs on, and so does the interpreter, from the state the patched document decodes to. */
  lemma PatchReachesState<S>(codec: Codec<S>, state: S, snap: Snapshot, patch: Json)
    requires codec.enc(state) == Some(snap.state) && codec.dec(snap.state) == Some(state)
    requires snap.state.JObject? && patch.JObject?
    ensures exists document ::
      && PatchedDocument(snap.state, patch, document)
      && MergedState(codec, state, Some(patch)) == codec.dec(document)
      && (StateFor(codec, snap, Patched(patch)) ==
            if codec.dec(document).Some? then Ok(codec.dec(document).value) else Err(DecodeFailed))
  {
    forall k
      ensures MergePatch(snap.state, patch).Ok? && MergePatch(snap.state, patch).value.JObject?
      ensures var m := MergePatch(snap.state, patch).value.members;
        && (k in patch.members && !patch.members[k].JNull? && !patch.members[k].JObject? ==>
              k in m && m[k] == patch.members[k])
        && (k in patch.members && patch.members[k].JNull? ==> k !in m)
        && (k !in patch.members ==> Lookup(m, k) == Lookup(snap.state.members, k))
    {
      PatchOverrulesBase(snap.state, patch, k);
    }
    assert PatchedDocument(snap.state, patch, MergePatch(snap.state, patch).value);
  }
}
