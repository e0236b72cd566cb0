/**
 Steps of a workflow and the combinators that build steps from steps.  A step
 is a function from state to outcome: its effects are in the state it returns.
 */
module WorkflowSteps {
  import opened Wrappers

  datatype StepStatus = Unset | Completed | Suspended | Failed | Skipped

  datatype SuspendReason = AwaitingInput

  datatype Suspension = Suspension(reason: SuspendReason, prompt: string)

  datatype StepOutput<S> = StepOutput(state: S, status: StepStatus, suspend: Option<Suspension>)

  datatype Fault =
    | Fault(message: string)
    | Within(stepId: string, cause: Fault)
    | RetryExhausted(attempts: int, cause: Fault)
    | Joined(causes: seq<Fault>)

  /** Go's (StepOutput, error) pair. */
  datatype Outcome<S> = Outcome(out: StepOutput<S>, err: Option<Fault>)

  datatype Step<!S> = Step(id: string, run: S -> Outcome<S>)

  // ---------- Sequence ----------

  function RunSequence<S>(steps: seq<Step<S>>, state: S): Outcome<S>
    decreases |steps|
  {
    if steps == [] then Outcome(StepOutput(state, Completed, None), None)
    else
      var r := steps[0].run(state);
      if r.err.Some? then Outcome(StepOutput(state, Unset, None), Some(Within(steps[0].id, r.err.value)))
      else if r.out.status.Suspended? then Outcome(StepOutput(r.out.state, Suspended, r.out.suspend), None)
      else if r.out.status.Failed? then Outcome(StepOutput(r.out.state, Failed, None), None)
      else RunSequence(steps[1..], r.out.state)
  }

  method ExecuteSequence<S>(steps: seq<Step<S>>, state: S) returns (r: Outcome<S>)
    ensures r == RunSequence(steps, state)
  {
    var current := state;
    var i := 0;
    while i < |steps|
      invariant i <= |steps| && RunSequence(steps, state) == RunSequence(steps[i..], current)
    {
      var o := steps[i].run(current);
      if o.err.Some? {
        return Outcome(StepOutput(current, Unset, None), Some(Within(steps[i].id, o.err.value)));
      }
      if o.out.status.Suspended? {
        return Outcome(StepOutput(o.out.state, Suspended, o.out.suspend), None);
      }
      if o.out.status.Failed? {
        return Outcome(StepOutput(o.out.state, Failed, None), None);
      }
      current := o.out.state;
      assert steps[i..][1..] == steps[i + 1..];
      i := i + 1;
    }
    r := Outcome(StepOutput(current, Completed, None), None);
  }

  predicate Stops<S>(r: Outcome<S>) {
    r.err.Some? || r.out.status.Suspended? || r.out.status.Failed?
  }

  /** Running xs ++ ys is running xs and then ys, unless xs stops. */
  lemma {:induction false} SequenceConcatenates<S>(xs: seq<Step<S>>, ys: seq<Step<S>>, state: S)
    ensures RunSequence(xs + ys, state) ==
      if Stops(RunSequence(xs, state)) then RunSequence(xs, state)
      else RunSequence(ys, RunSequence(xs, state).out.state)
    decreases |xs|
  {
    if xs == [] {
      assert xs + ys == ys;
    } else {
      assert (xs + ys)[1..] == xs[1..] + ys;
      var r := xs[0].run(state);
      SequenceConcatenates(xs[1..], ys, r.out.state);
    }
  }

  function SequenceStep<S>(id: string, steps: seq<Step<S>>): Step<S> {
    Step(id, s => RunSequence(steps, s))
  }

  lemma {:induction false} SequenceStatus<S>(steps: seq<Step<S>>, state: S)
    ensures var r := RunSequence(steps, state);
      r.err.None? ==>
        !r.out.status.Unset? && !r.out.status.Skipped? && (!r.out.status.Suspended? ==> r.out.suspend.None?)
    decreases |steps|
  {
    if steps != [] {
      SequenceStatus(steps[1..], steps[0].run(state).out.state);
    }
  }

  /** No steps complete with the state as it is; one step passes its outcome on. */
  lemma SingletonSequence<S>(step: Step<S>, state: S)
    ensures RunSequence<S>([], state) == Outcome(StepOutput(state, Completed, None), None)
    ensures var r := step.run(state);
      RunSequence([step], state) ==
        if r.err.Some? then Outcome(StepOutput(state, Unset, None), Some(Within(step.id, r.err.value)))
        else if r.out.status.Suspended? then Outcome(StepOutput(r.out.state, Suspended, r.out.suspend), None)
        else if r.out.status.Failed? then Outcome(StepOutput(r.out.state, Failed, None), None)
        else Outcome(StepOutput(r.out.state, Completed, None), None)
  {
    assert [step][1..] == [];
  }

  /**
   Nesting a sequence inside another means the same as writing its steps in
   place, exactly when no nested step reports an error; an error comes out
   wrapped once more and without the progress made inside.
   */
  lemma NestingPreservesMeaning<S>(id: string, ws: seq<Step<S>>, xs: seq<Step<S>>, ys: seq<Step<S>>, state: S)
    requires !Stops(RunSequence(ws, state))
    ensures RunSequence(ws + [SequenceStep(id, xs)] + ys, state) == RunSequence(ws + xs + ys, state)
      <==> RunSequence(xs, RunSequence(ws, state).out.state).err.None?
  {
    var nested := [SequenceStep(id, xs)];
    var mid := RunSequence(ws, state).out.state;
    assert ws + nested + ys == ws + (nested + ys) && ws + xs + ys == ws + (xs + ys);
    SequenceConcatenates(ws, nested + ys, state);
    SequenceConcatenates(ws, xs + ys, state);
    SequenceConcatenates(nested, ys, mid);
    SequenceConcatenates(xs, ys, mid);
    SingletonSequence(SequenceStep(id, xs), mid);
    SequenceStatus(xs, mid);
    var r := RunSequence(xs, mid);
    if r.err.Some? {
      WrappingDiffers(id, r.err.value);
    } else {
      FailedCarriesNoSuspension(xs, mid);
    }
  }

  lemma {:induction false} FailedCarriesNoSuspension<S>(steps: seq<Step<S>>, state: S)
    ensures RunSequence(steps, state).out.status.Failed? ==> RunSequence(steps, state).out.suspend == None
    decreases |steps|
  {
    if steps != [] {
      FailedCarriesNoSuspension(steps[1..], steps[0].run(state).out.state);
    }
  }

  lemma WrappingDiffers(id: string, f: Fault)
    ensures Within(id, f) != f
  {
  }

  // ---------- Retry ----------

  /**
   run(k, ·) is attempt k of the step, and done(k) says the context ended
   during the wait after attempt k.  The result is the first attempt without
   error; failing that, the context's error or the last one, with the state
   it started from.
   */
  method ExecuteRetry<S>(maxAttempts: int, run: (int, S) -> Outcome<S>, done: int -> bool, ctxErr: Fault, state: S)
    returns (r: Outcome<S>, used: int)
    requires 1 <= maxAttempts
    ensures 1 <= used <= maxAttempts
    ensures forall k | 1 <= k < used :: run(k, state).err.Some? && !done(k)
    ensures run(used, state).err.None? ==> r == run(used, state)
    ensures run(used, state).err.Some? ==> used == maxAttempts || done(used)
    ensures run(used, state).err.Some? ==> r == Outcome(StepOutput(state, Unset, None),
      Some(if used == maxAttempts then RetryExhausted(maxAttempts, run(used, state).err.value) else ctxErr))
  {
    used := 1;
    while true
      invariant 1 <= used <= maxAttempts
      invariant forall k | 1 <= k < used :: run(k, state).err.Some? && !done(k)
      decreases maxAttempts - used
    {
      var o := run(used, state);
      if o.err.None? {
        return o, used;
      }
      if used == maxAttempts {
        return Outcome(StepOutput(state, Unset, None), Some(RetryExhausted(maxAttempts, o.err.value))), used;
      }
      if done(used) {
        return Outcome(StepOutput(state, Unset, None), Some(ctxErr)), used;
      }
      used := used + 1;
    }
  }

  // ---------- Parallel ----------

  /** One worker either returns or panics. */
  datatype Work<S> = Returned(o: Outcome<S>) | Panicked(reason: string)

  datatype Worker<!S> = Worker(id: string, run: S -> Work<S>)

  function ErrorOf<S>(w: Worker<S>, state: S): Option<Fault> {
    match w.run(state)
    case Panicked(reason) => Some(Fault("panic in step " + w.id + ": " + reason))
    case Returned(o) => o.err
  }

  function Faults(errs: seq<Option<Fault>>): seq<Fault> {
    if errs == [] then []
    else
      var rest := Faults(errs[..|errs| - 1]);
      match errs[|errs| - 1]
      case Some(f) => rest + [f]
      case None => rest
  }

  /** The first output with a given status. */
  function FirstWith<S>(outs: seq<StepOutput<S>>, st: StepStatus): Option<StepOutput<S>> {
    if outs == [] then None
    else
      var f := FirstWith(outs[..|outs| - 1], st);
      if f.Some? then f
      else if outs[|outs| - 1].status == st then Some(outs[|outs| - 1]) else None
  }

  function States<S>(outs: seq<StepOutput<S>>): (states: seq<S>)
    ensures |states| == |outs| && forall i | 0 <= i < |outs| :: states[i] == outs[i].state
  {
    seq(|outs|, i requires 0 <= i < |outs| => outs[i].state)
  }

  /** What Parallel makes of its collected results. */
  function Collected<S>(state: S, errs: seq<Option<Fault>>, outs: seq<StepOutput<S>>, merge: (S, seq<S>) -> S)
    : Outcome<S>
  {
    if Faults(errs) != [] then Outcome(StepOutput(state, Unset, None), Some(Joined(Faults(errs))))
    else if FirstWith(outs, Suspended).Some? then
      var s := FirstWith(outs, Suspended).value;
      Outcome(StepOutput(s.state, Suspended, s.suspend), None)
    else if FirstWith(outs, Failed).Some? then
      Outcome(StepOutput(FirstWith(outs, Failed).value.state, Failed, None), None)
    else Outcome(StepOutput(merge(state, States(outs)), Completed, None), None)
  }

  ghost predicate Covers(order: seq<nat>, n: nat) {
    (forall t | 0 <= t < |order| :: order[t] < n) && (forall i | 0 <= i < n :: i in order)
  }

  /** The slots after every worker has stored its result. */
  ghost predicate Filled<S>(workers: seq<Worker<S>>, state: S, errs: seq<Option<Fault>>, outs: seq<StepOutput<S>>) {
    && |errs| == |outs| == |workers|
    && forall i | 0 <= i < |workers| ::
         && errs[i] == ErrorOf(workers[i], state)
         && (errs[i].None? ==> outs[i] == workers[i].run(state).o.out)
  }

  /**
   Workers finish in any order, each writing only its own slot.  The result is
   the same for every order: it is what all workers' own results determine.
   zero is the value of a slot nobody wrote.
   */
  method ExecuteParallel<S(!new)>(workers: seq<Worker<S>>, state: S, merge: (S, seq<S>) -> S, zero: S, order: seq<nat>)
    returns (r: Outcome<S>)
    requires Covers(order, |workers|)
    ensures forall errs, outs | Filled(workers, state, errs, outs) :: r == Collected(state, errs, outs, merge)
    ensures exists errs, outs :: Filled(workers, state, errs, outs) && r == Collected(state, errs, outs, merge)
    ensures ParallelOutcome(workers, state, merge, r)
  {
    var results := new StepOutput<S>[|workers|](_ => StepOutput(zero, Unset, None));
    var errs := new Option<Fault>[|workers|](_ => None);
    RunWorkers(workers, state, order, results, errs);
    var outs := results[..];
    r := Collected(state, errs[..], outs, merge);
    ParallelPriority(workers, state, errs[..], outs, merge);
    forall es, os | Filled(workers, state, es, os)
      ensures r == Collected(state, es, os, merge)
    {
      assert es == errs[..];
      NoFaults(es);
      if Faults(es) == [] {
        assert os == outs;
      }
    }
  }

  method RunWorkers<S>(workers: seq<Worker<S>>, state: S, order: seq<nat>,
                       results: array<StepOutput<S>>, errs: array<Option<Fault>>)
    requires Covers(order, |workers|) && results.Length == errs.Length == |workers|
    requires forall i | 0 <= i < errs.Length :: errs[i].None?
    modifies results, errs
    ensures Filled(workers, state, errs[..], results[..])
  {
    var t := 0;
    while t < |order|
      invariant t <= |order|
      invariant forall i | 0 <= i < |workers| && i in order[..t] ::
        errs[i] == ErrorOf(workers[i], state) && (errs[i].None? ==> results[i] == workers[i].run(state).o.out)
      invariant forall i | 0 <= i < |workers| && i !in order[..t] :: errs[i].None?
    {
      var idx := order[t];
      match workers[idx].run(state) {
        case Panicked(reason) => errs[idx] := Some(Fault("panic in step " + workers[idx].id + ": " + reason));
        case Returned(o) =>
          if o.err.Some? {
            errs[idx] := o.err;
          } else {
            results[idx] := o.out;
          }
      }
      t := t + 1;
    }
    assert order[..t] == order;
  }

  lemma {:induction false} NoFaults(errs: seq<Option<Fault>>)
    ensures Faults(errs) == [] <==> forall i | 0 <= i < |errs| :: errs[i].None?
  {
    if errs != [] {
      NoFaults(errs[..|errs| - 1]);
    }
  }

  /** The errors that occurred, in the order of the slots. */
  lemma {:induction false} FaultsInOrder(a: seq<Option<Fault>>, b: seq<Option<Fault>>, f: Fault)
    ensures Faults([None]) == [] && Faults([Some(f)]) == [f]
    ensures Faults(a + b) == Faults(a) + Faults(b)
    decreases |b|
  {
    var none: seq<Option<Fault>> := [None];
    assert none[..0] == [] && [Some(f)][..0] == [];
    if b == [] {
      assert a + b == a;
    } else {
      var n := |b| - 1;
      FaultsInOrder(a, b[..n], f);
      assert (a + b)[..|a + b| - 1] == a + b[..n];
    }
  }

  lemma {:induction false} FirstIsLowest<S>(outs: seq<StepOutput<S>>, st: StepStatus) returns (i: nat)
    ensures FirstWith(outs, st).None? ==> i == |outs|
    ensures FirstWith(outs, st).Some? ==> i < |outs| && outs[i] == FirstWith(outs, st).value && outs[i].status == st
    ensures forall j | 0 <= j < i :: outs[j].status != st
  {
    if outs == [] {
      i := 0;
    } else {
      i := FirstIsLowest(outs[..|outs| - 1], st);
      if FirstWith(outs[..|outs| - 1], st).None? {
        i := if outs[|outs| - 1].status == st then |outs| - 1 else |outs|;
      }
    }
  }

  predicate FirstAt<S>(outs: seq<StepOutput<S>>, st: StepStatus, i: nat)
    requires i < |outs|
  {
    outs[i].status == st && forall j | 0 <= j < i :: outs[j].status != st
  }

  predicate Broke<S>(w: Worker<S>, state: S) {
    w.run(state).Panicked? || w.run(state).o.err.Some?
  }

  /**
   Error over suspension over failure, and within suspension and failure the
   lowest index wins; otherwise all results are merged in step order.
   */
  ghost predicate ParallelOutcome<S(!new)>(workers: seq<Worker<S>>, state: S, merge: (S, seq<S>) -> S, r: Outcome<S>) {
    if exists i :: 0 <= i < |workers| && Broke(workers[i], state) then
      r.err.Some? && r.err.value.Joined? && r.out == StepOutput(state, Unset, None)
    else
      && r.err.None?
      && (forall i | LowestWith(workers, state, Suspended, i) ::
            r.out == StepOutput(workers[i].run(state).o.out.state, Suspended, workers[i].run(state).o.out.suspend))
      && (forall i | LowestWith(workers, state, Failed, i) && NoneWith(workers, state, Suspended) ::
            r.out == StepOutput(workers[i].run(state).o.out.state, Failed, None))
      && (NoneWith(workers, state, Suspended) && NoneWith(workers, state, Failed) ==>
            exists states: seq<S> ::
              && |states| == |workers|
              && (forall i | 0 <= i < |workers| :: states[i] == workers[i].run(state).o.out.state)
              && r.out == StepOutput(merge(state, states), Completed, None))
  }

  predicate EndsWith<S>(w: Worker<S>, state: S, st: StepStatus) {
    w.run(state).Returned? && w.run(state).o.out.status == st
  }

  ghost predicate LowestWith<S>(workers: seq<Worker<S>>, state: S, st: StepStatus, i: int) {
    && 0 <= i < |workers| && EndsWith(workers[i], state, st)
    && forall j | 0 <= j < i :: !EndsWith(workers[j], state, st)
  }

  ghost predicate NoneWith<S>(workers: seq<Worker<S>>, state: S, st: StepStatus) {
    forall i | 0 <= i < |workers| :: !EndsWith(workers[i], state, st)
  }

  /** What is made of filled slots is the outcome, and its error joins the workers' errors in step order. */
  lemma ParallelPriority<S(!new)>(workers: seq<Worker<S>>, state: S, errs: seq<Option<Fault>>, outs: seq<StepOutput<S>>,
                            merge: (S, seq<S>) -> S)
    requires Filled(workers, state, errs, outs)
    ensures var r := Collected(state, errs, outs, merge);
      && ParallelOutcome(workers, state, merge, r)
      && (r.err.Some? ==> r.err.value == Joined(Faults(errs)))
  {
    var r := Collected(state, errs, outs, merge);
    NoFaults(errs);
    assert forall i | 0 <= i < |workers| :: Broke(workers[i], state) <==> errs[i].Some?;
    if forall i | 0 <= i < |workers| :: !Broke(workers[i], state) {
      assert forall i, st | 0 <= i < |workers| :: EndsWith(workers[i], state, st) <==> outs[i].status == st;
      var s := FirstIsLowest(outs, Suspended);
      var f := FirstIsLowest(outs, Failed);
      LowestIsUnique(workers, state, Suspended, s);
      LowestIsUnique(workers, state, Failed, f);
      assert |States(outs)| == |workers|;
    }
  }

  lemma LowestIsUnique<S>(workers: seq<Worker<S>>, state: S, st: StepStatus, i: nat)
    requires i <= |workers| && (i < |workers| ==> EndsWith(workers[i], state, st))
    requires forall j | 0 <= j < i :: !EndsWith(workers[j], state, st)
    ensures if i < |workers|
      then !NoneWith(workers, state, st) && forall k | LowestWith(workers, state, st, k) :: k == i
      else NoneWith(workers, state, st) && forall k :: !LowestWith(workers, state, st, k)
  {
  }

  /** A worker's error: its panic, with the step's name, or the error it returned. */
  lemma ErrorOfWorker<S>(w: Worker<S>, state: S)
    ensures w.run(state).Panicked? ==>
      ErrorOf(w, state) == Some(Fault("panic in step " + w.id + ": " + w.run(state).reason))
    ensures w.run(state).Returned? ==> ErrorOf(w, state) == w.run(state).o.err
  {
  }
}
