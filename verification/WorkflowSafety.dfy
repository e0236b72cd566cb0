/**
 What concurrent Start, Resume and reaper calls guarantee over whole runs.
 */
module WorkflowSafety {
  import opened Wrappers
  import opened JsonMerge
  import opened WorkflowSteps
  import opened WorkflowEngine
  import opened WorkflowProtocol

  // ---------- linearisation ----------

  /** The call behind a log entry could have run alone on this store, start to finish. */
  ghost predicate SerialOk<S>(w: World<S>, runs: Runs, e: Entry) {
    match e
    case Began(first) =>
      && first.runId !in runs && first.version == 1 && first.status.RunRunning? && first.workflow == w.def.id
      && Loaded(runs, w.def.id, first.key).None?
    case Advanced(id, input, now) =>
      && id in runs && Active(runs[id]) && (input.Patched? ==> runs[id].status.RunSuspended?)
      && PlanFor(w.def, w.codec, runs[id], input, now).Finish?
      && Serial(w, runs, e)[id].version == runs[id].version + 1
    case Expired(id, now) =>
      && id in runs && runs[id].status.RunSuspended?
      && Serial(w, runs, e)[id] ==
           runs[id].(status := RunFailed, endedAt := Some(now), lastError := Some(Reaped),
                     version := runs[id].version + 1)
    case Forgot(ids) => forall id | id in ids :: id in runs && !Active(runs[id])
  }

  ghost predicate LogOk<S>(w: World<S>, log: seq<Entry>) {
    forall n | 0 <= n < |log| :: SerialOk(w, Replay(w, log[..n]), log[n])
  }

  lemma LogOkAfter<S>(w: World<S>, log: seq<Entry>, e: Entry)
    requires LogOk(w, log) && SerialOk(w, Replay(w, log), e)
    ensures LogOk(w, log + [e])
  {
    var longer := log + [e];
    forall n | 0 <= n < |longer|
      ensures SerialOk(w, Replay(w, longer[..n]), longer[n])
    {
      if n < |log| {
        assert longer[..n] == log[..n];
      } else {
        assert longer[..n] == log;
      }
    }
  }

  ghost predicate OneMore<S>(w: World<S>, s: State<S>, log: seq<Entry>) {
    log == s.log || (|log| == |s.log| + 1 && log[..|s.log|] == s.log && SerialOk(w, s.runs, log[|s.log|]))
  }

  lemma InsertEntry<S>(w: World<S>, s: State<S>, f: FlightId, newId: RunId, now: Time)
    requires Inv(w, s) && f in s.flights && s.flights[f].Starting? && newId !in s.used
    ensures OneMore(w, s, Insert(w, s, f, newId, now).log)
  {
    assert FlightInv(w, s, s.flights[f]);
  }

  lemma SaveEntry<S>(w: World<S>, s: State<S>, f: FlightId)
    requires Inv(w, s) && f in s.flights && s.flights[f].Executing?
    ensures OneMore(w, s, Save(s, f).log)
  {
    var fl := s.flights[f];
    assert FlightInv(w, s, fl);
    PlanShape(w, fl.loaded, fl.input, fl.now);
  }

  lemma ReapEntry<S>(w: World<S>, s: State<S>, f: FlightId, now: Time)
    requires Inv(w, s) && f in s.flights && s.flights[f].Reaping? && s.flights[f].todo != []
    ensures OneMore(w, s, ReapHead(s, f, now).log)
  {
    assert FlightInv(w, s, s.flights[f]);
    assert Held(w, s, s.flights[f].todo[0]);
  }

  /** A step writes at most one entry, and that entry is one the call could have written running alone now. */
  lemma StepEntry<S>(w: World<S>, s: State<S>, a: Action<S>)
    requires Inv(w, s) && Enabled(w, s, a)
    ensures OneMore(w, s, Apply(w, s, a).log)
  {
    match a
    case StartInsert(f, newId, now) => InsertEntry(w, s, f, newId, now);
    case CommitSave(f) => SaveEntry(w, s, f);
    case ReapSave(f, now) => ReapEntry(w, s, f, now);
    case _ =>
  }

  /**
   Every interleaving has the same effect on the store as its committed calls
   run one after another, each on the store the previous one left; each saved
   execution raises the version of its run by one.
   */
  lemma {:induction false} Linearises<S(!new)>(w: World<S>, acts: seq<Action<S>>)
    requires Faithful(w.codec) && Valid(w, acts)
    ensures Exec(w, acts).runs == Replay(w, Exec(w, acts).log)
    ensures LogOk(w, Exec(w, acts).log)
  {
    Reachable(w, acts);
    if acts != [] {
      var n := |acts| - 1;
      Linearises(w, acts[..n]);
      Reachable(w, acts[..n]);
      var s := Exec(w, acts[..n]);
      StepEntry(w, s, acts[n]);
      var log := Exec(w, acts).log;
      if log != s.log {
        assert log == s.log + [log[|s.log|]];
        LogOkAfter(w, s.log, log[|s.log|]);
      }
    }
  }

  // ---------- the serial entries are the engine's own calls ----------

  /** Saving what an execution of an active stored run planned always succeeds when nobody interferes. */
  lemma SaveAlone<S>(w: World<S>, runs: Runs, id: RunId, input: Input, now: Time)
    requires OneActive(runs) && id in runs && RowInv(w, id, runs[id]) && Active(runs[id])
    requires PlanFor(w.def, w.codec, runs[id], input, now).Finish?
    ensures var snap := PlanFor(w.def, w.codec, runs[id], input, now).snap;
      SaveResult(runs, snap, snap.version) == (Saved, Serial(w, runs, Advanced(id, input, now)))
  {
    PlanShape(w, runs[id], input, now);
    EndingKeepsOneActive(runs, id, Stored(runs[id], PlanFor(w.def, w.codec, runs[id], input, now).snap));
  }

  /** A Resume running alone writes one serial entry, or nothing when there is no suspended run or no plan to save. */
  lemma ResumeIsSerial<S>(w: World<S>, runs: Runs, key: string, resume: Option<Json>, now: Time)
    requires w.def.durable && OneActive(runs) && forall id | id in runs :: RowInv(w, id, runs[id])
    ensures var after := ResumeOn(runs, w.def, w.codec, key, resume, now).runs;
      match Loaded(runs, w.def.id, key)
      case None => after == runs
      case Some(id) =>
        if runs[id].status.RunSuspended? && PlanFor(w.def, w.codec, runs[id], InputOf(resume), now).Finish?
        then after == Serial(w, runs, Advanced(id, InputOf(resume), now))
        else after == runs
  {
    match Loaded(runs, w.def.id, key)
    case None =>
    case Some(id) =>
      if PlanFor(w.def, w.codec, runs[id], InputOf(resume), now).Finish? {
        SaveAlone(w, runs, id, InputOf(resume), now);
      }
  }

  /** A Start running alone writes its first snapshot and the execution of it, unless a run of the key is active. */
  lemma StartIsSerial<S(!new)>(w: World<S>, runs: Runs, key: string, initial: S, newId: RunId, now: Time)
    requires Faithful(w.codec) && w.def.durable && OneActive(runs) && newId !in runs
    requires forall id | id in runs :: RowInv(w, id, runs[id])
    requires w.codec.enc(initial).Some?
    ensures var after := StartOn(runs, w.def, w.codec, key, initial, newId, now).runs;
      var first := FirstSnapshot(w.def, newId, key, w.codec.enc(initial).value, now);
      var begun := Serial(w, runs, Began(first));
      if Loaded(runs, w.def.id, key).Some? then after == runs
      else if PlanFor(w.def, w.codec, first, Continue, now).Abort? then after == begun
      else after == Serial(w, begun, Advanced(newId, Continue, now))
  {
    var first := FirstSnapshot(w.def, newId, key, w.codec.enc(initial).value, now);
    var begun := Serial(w, runs, Began(first));
    if Loaded(runs, w.def.id, key).None? {
      assert forall id | id in runs :: !IsActiveRun(runs, w.def.id, key, id);
      FirstPlan(w, newId, key, initial, now);
      if PlanFor(w.def, w.codec, first, Continue, now).Finish? {
        SaveAlone(w, begun, newId, Continue, now);
      }
    }
  }

  /** Joining the run that won the insert writes one serial entry when it runs alone, or nothing. */
  lemma JoinIsSerial<S>(w: World<S>, runs: Runs, key: string, now: Time)
    requires w.def.durable && OneActive(runs) && forall id | id in runs :: RowInv(w, id, runs[id])
    ensures var after := ResumeOnConflict(runs, w.def, w.codec, key, now).runs;
      match Loaded(runs, w.def.id, key)
      case None => after == runs
      case Some(id) =>
        if PlanFor(w.def, w.codec, runs[id], Continue, now).Finish?
        then after == Serial(w, runs, Advanced(id, Continue, now))
        else after == runs
  {
    match Loaded(runs, w.def.id, key)
    case None =>
    case Some(id) =>
      if PlanFor(w.def, w.codec, runs[id], Continue, now).Finish? {
        SaveAlone(w, runs, id, Continue, now);
      }
  }

  // ---------- committed calls answer as if they had run alone ----------

  /** A committing Resume answers what a Resume running alone at the moment of the commit answers. */
  lemma ResumeAnswersSerially<S>(w: World<S>, s: State<S>, f: FlightId, resume: Option<Json>)
    requires w.def.durable && Inv(w, s) && Commits(s, f)
    requires s.flights[f].loaded.status.RunSuspended? && s.flights[f].input == InputOf(resume)
    ensures var fl, s' := s.flights[f], Save(s, f);
      && s'.flights[f] == Answered(fl.plan.result, fl.plan.err)
      && ResumeOn(s.runs, w.def, w.codec, fl.loaded.key, resume, fl.now) == Effect(s'.runs, fl.plan.result, fl.plan.err)
  {
    CommitIsSerial(w, s, f);
    LoadedIsTheOne(s.runs, w.def.id, s.flights[f].loaded.key, s.flights[f].loaded.runId);
  }

  /** A committing execution that only continues its run answers what a joining Start running alone then answers. */
  lemma JoinAnswersSerially<S>(w: World<S>, s: State<S>, f: FlightId)
    requires w.def.durable && Inv(w, s) && Commits(s, f) && s.flights[f].input.Continue?
    ensures var fl, s' := s.flights[f], Save(s, f);
      && s'.flights[f] == Answered(fl.plan.result, fl.plan.err)
      && ResumeOnConflict(s.runs, w.def, w.codec, fl.loaded.key, fl.now) == Effect(s'.runs, fl.plan.result, fl.plan.err)
  {
    CommitIsSerial(w, s, f);
    LoadedIsTheOne(s.runs, w.def.id, s.flights[f].loaded.key, s.flights[f].loaded.runId);
    PlanIsNoConflict(w, s.flights[f].loaded, Continue, s.flights[f].now);
  }

  /** A committing first execution answers what its whole Start answers on the store without the run it inserted. */
  lemma StartAnswersSerially<S(!new)>(w: World<S>, s: State<S>, f: FlightId, initial: S)
    requires Faithful(w.codec) && w.def.durable && Inv(w, s) && Commits(s, f) && s.flights[f].input.Continue?
    requires var fl := s.flights[f];
      && w.codec.enc(initial).Some?
      && fl.loaded == FirstSnapshot(w.def, fl.loaded.runId, fl.loaded.key, w.codec.enc(initial).value, fl.now)
    ensures var fl, s' := s.flights[f], Save(s, f);
      && s'.flights[f] == Answered(fl.plan.result, fl.plan.err)
      && StartOn(s.runs - {fl.loaded.runId}, w.def, w.codec, fl.loaded.key, initial, fl.loaded.runId, fl.now)
         == Effect(s'.runs, fl.plan.result, fl.plan.err)
  {
    var fl := s.flights[f];
    var id, before := fl.loaded.runId, s.runs - {fl.loaded.runId};
    CommitIsSerial(w, s, f);
    FirstPlan(w, id, fl.loaded.key, initial, fl.now);
    assert before[id := fl.loaded] == s.runs;
    forall other
      ensures !IsActiveRun(before, w.def.id, fl.loaded.key, other)
    {
      assert other in before && Active(before[other]) ==> !SameKey(s.runs[other], s.runs[id]);
    }
    assert !InsertClashes(before, fl.loaded);
  }

  /** An execution about to win its compare and swap. */
  ghost predicate Commits<S>(s: State<S>, f: FlightId) {
    && f in s.flights && s.flights[f].Executing? && s.flights[f].plan.Finish?
    && s.flights[f].loaded.runId in s.runs && s.runs[s.flights[f].loaded.runId] == s.flights[f].loaded
  }

  lemma CommitIsSerial<S>(w: World<S>, s: State<S>, f: FlightId)
    requires Inv(w, s) && Commits(s, f)
    ensures var fl, s' := s.flights[f], Save(s, f);
      && RowInv(w, fl.loaded.runId, fl.loaded) && Active(fl.loaded)
      && fl.plan == PlanFor(w.def, w.codec, fl.loaded, fl.input, fl.now)
      && s'.flights[f] == Answered(fl.plan.result, fl.plan.err)
      && SaveResult(s.runs, fl.plan.snap, fl.plan.snap.version) == (Saved, s'.runs)
  {
    assert FlightInv(w, s, s.flights[f]);
    CommitWinsIffUnchanged(w, s, f);
    SaveAlone(w, s.runs, s.flights[f].loaded.runId, s.flights[f].input, s.flights[f].now);
  }

  /** An execution's own error is never the run conflict. */
  lemma PlanIsNoConflict<S>(w: World<S>, snap: Snapshot, input: Input, now: Time)
    ensures var p := PlanFor(w.def, w.codec, snap, input, now); p.Finish? ==> p.err != Some(RunConflict)
  {
  }

  // ---------- winners and losers ----------

  /**
   An execution commits exactly when its run is still the snapshot it loaded;
   otherwise the store is left alone and the call goes on to ask who won.
   */
  lemma CommitWinsIffUnchanged<S>(w: World<S>, s: State<S>, f: FlightId)
    requires Inv(w, s) && f in s.flights && s.flights[f].Executing? && s.flights[f].plan.Finish?
    ensures var fl := s.flights[f];
      var id := fl.loaded.runId;
      var s' := Save(s, f);
      && (s'.flights[f].Answered? <==> id in s.runs && s.runs[id] == fl.loaded)
      && (s'.flights[f].Answered? ==>
            && s'.flights[f] == Answered(fl.plan.result, fl.plan.err)
            && s'.runs == s.runs[id := Stored(fl.loaded, fl.plan.snap)]
            && s'.runs[id].version == fl.loaded.version + 1)
      && (!s'.flights[f].Answered? ==>
            s'.flights[f] == Resolving(fl.loaded.key, fl.joined) && s'.runs == s.runs && s'.log == s.log)
  {
    var fl := s.flights[f];
    assert FlightInv(w, s, fl);
    PlanShape(w, fl.loaded, fl.input, fl.now);
    if fl.loaded.runId in s.runs && s.runs[fl.loaded.runId] == fl.loaded {
      EndingKeepsOneActive(s.runs, fl.loaded.runId, Stored(fl.loaded, fl.plan.snap));
    }
  }

  /**
   What a loser is told depends on whether some run of its key is still active:
   if one is, a run conflict (or, for a call that joined on an insert clash, a
   normal result); if none is, an error that the run was not found, which no
   caller turns into a normal result.
   */
  lemma LoserIsTold<S>(w: World<S>, s: State<S>, key: string, joined: bool)
    requires OneActive(s.runs)
    ensures var a := Answer(w, s, key, joined);
      && a.Answered?
      && (a.err == Some(VersionConflictRunNotFound) <==> forall id :: !IsActiveRun(s.runs, w.def.id, key, id))
      && (a.result.RunResult? <==>
            exists id :: IsActiveRun(s.runs, w.def.id, key, id) && w.codec.dec(s.runs[id].state).Some?)
      && (a.result.RunResult? ==> a.err == if joined then None else Some(RunConflict))
      && (a.result.RunResult? ==> exists id ::
            && IsActiveRun(s.runs, w.def.id, key, id) && a.result.runId == s.runs[id].runId
            && a.result.status == s.runs[id].status && w.codec.dec(s.runs[id].state) == Some(a.result.state)
            && a.result.suspend.None?)
      && (a.err.None? ==> joined && a.result.RunResult?)
  {
    forall id: RunId | IsActiveRun(s.runs, w.def.id, key, id)
      ensures Loaded(s.runs, w.def.id, key) == Some(id)
    {
      LoadedIsTheOne(s.runs, w.def.id, key, id);
    }
  }

  /**
   Two calls that loaded the same snapshot cannot both commit.  The second is
   told of a conflict when the first suspended the run again, and that there is
   no run when the first finished it.
   */
  lemma SecondCommitLoses<S(!new)>(w: World<S>, s: State<S>, f: FlightId, g: FlightId)
    requires Faithful(w.codec) && w.def.durable && Inv(w, s) && f != g && f in s.flights && g in s.flights
    requires s.flights[f].Executing? && s.flights[f].plan.Finish?
    requires s.flights[g].Executing? && s.flights[g].plan.Finish?
    requires s.flights[f].loaded == s.flights[g].loaded && s.flights[f].loaded.runId in s.runs
    requires s.runs[s.flights[f].loaded.runId] == s.flights[f].loaded
    ensures var first := Save(s, f);
      var second := Save(first, g);
      var joined := s.flights[g].joined;
      && first.runs != s.runs && second.runs == first.runs && second.flights[g].Resolving?
      && Answer(w, second, s.flights[g].loaded.key, joined).err ==
           (if s.flights[f].plan.snap.status.RunSuspended? then (if joined then None else Some(RunConflict))
            else Some(VersionConflictRunNotFound))
  {
    var first := Save(s, f);
    var fl := s.flights[f];
    CommitWinsIffUnchanged(w, s, f);
    SaveStep(w, s, f);
    CommitWinsIffUnchanged(w, first, g);
    assert FlightInv(w, s, fl);
    PlanShape(w, fl.loaded, fl.input, fl.now);
    LoserAfter(w, s.runs, fl.loaded, fl.input, fl.now, Save(first, g), s.flights[g].joined);
  }

  /** The loser's answer once the winner's snapshot is in place. */
  lemma LoserAfter<S(!new)>(w: World<S>, runs: Runs, loaded: Snapshot, input: Input, now: Time, s: State<S>,
                            joined: bool)
    requires Faithful(w.codec) && w.def.durable && OneActive(runs) && OneActive(s.runs)
    requires loaded.runId in runs && runs[loaded.runId] == loaded && Active(loaded) && loaded.workflow == w.def.id
    requires var p := PlanFor(w.def, w.codec, loaded, input, now);
      p.Finish? && p.snap.status != RunRunning && s.runs == runs[loaded.runId := Stored(loaded, p.snap)]
    ensures Answer(w, s, loaded.key, joined).err ==
      (if !PlanFor(w.def, w.codec, loaded, input, now).snap.status.RunSuspended? then Some(VersionConflictRunNotFound)
       else if joined then None else Some(RunConflict))
  {
    var p := PlanFor(w.def, w.codec, loaded, input, now);
    var id, key := loaded.runId, loaded.key;
    LoserIsTold(w, s, key, joined);
    if p.snap.status.RunSuspended? {
      LoadedIsTheOne(s.runs, w.def.id, key, id);
      assert w.codec.dec(s.runs[id].state).Some?;
    } else {
      forall other
        ensures !IsActiveRun(s.runs, w.def.id, key, other)
      {
        assert other != id && other in runs && Active(runs[other]) ==> !SameKey(runs[other], runs[id]);
      }
    }
  }

  // ---------- a run in which a joining Start is told there is no run ----------

  lemma Extend<S>(w: World<S>, acts: seq<Action<S>>, a: Action<S>)
    requires Valid(w, acts) && Enabled(w, Exec(w, acts), a)
    ensures Valid(w, acts + [a]) && Exec(w, acts + [a]) == Apply(w, Exec(w, acts), a)
  {
    var longer := acts + [a];
    assert |longer| == |acts| + 1 && longer[..|longer| - 1] == acts && longer[|longer| - 1] == a;
    assert Valid(w, longer);
    assert Exec(w, longer) == Apply(w, Exec(w, longer[..|longer| - 1]), longer[|longer| - 1]);
  }

  /** The first snapshot of a key and the execution of it. */
  ghost function FirstOf<S>(w: World<S>, id: RunId, key: string, initial: S, now: Time): Snapshot
    requires w.codec.enc(initial).Some?
  {
    FirstSnapshot(w.def, id, key, w.codec.enc(initial).value, now)
  }

  lemma BothChecked<S(!new)>(w: World<S>, key: string, initial: S) returns (acts: seq<Action<S>>)
    requires w.codec.enc(initial).Some?
    ensures Valid(w, acts)
    ensures Exec(w, acts) == State(map[], map[0 := Starting(key, initial), 1 := Starting(key, initial)], {}, [])
  {
    acts := [];
    Extend(w, acts, StartCheck(0, key, initial));
    acts := acts + [StartCheck(0, key, initial)];
    Extend(w, acts, StartCheck(1, key, initial));
    acts := acts + [StartCheck(1, key, initial)];
    assert Exec(w, acts).flights == map[0 := Starting(key, initial), 1 := Starting(key, initial)];
  }

  lemma OneInserted<S(!new)>(w: World<S>, key: string, initial: S, now: Time) returns (acts: seq<Action<S>>)
    requires Faithful(w.codec) && w.codec.enc(initial).Some?
    ensures Valid(w, acts)
    ensures var first := FirstOf(w, 0, key, initial, now);
      var plan := PlanFor(w.def, w.codec, first, Continue, now);
      Exec(w, acts) == State(map[0 := first],
                             map[0 := Executing(first, Continue, now, plan, false), 1 := Starting(key, initial)],
                             {0}, [Began(first)])
  {
    var first := FirstOf(w, 0, key, initial, now);
    acts := BothChecked(w, key, initial);
    FirstPlan(w, 0, key, initial, now);
    Extend(w, acts, StartInsert(0, 0, now));
    acts := acts + [StartInsert(0, 0, now)];
    assert Exec(w, acts).runs == map[0 := first];
  }

  /** Two Starts check an empty store, one inserts, the other clashes and joins: both execute the same snapshot. */
  lemma BothExecute<S(!new)>(w: World<S>, key: string, initial: S, now: Time) returns (acts: seq<Action<S>>)
    requires Faithful(w.codec) && w.codec.enc(initial).Some?
    ensures Valid(w, acts)
    ensures var first := FirstOf(w, 0, key, initial, now);
      var plan := PlanFor(w.def, w.codec, first, Continue, now);
      Exec(w, acts) == State(map[0 := first],
                             map[0 := Executing(first, Continue, now, plan, false),
                                 1 := Executing(first, Continue, now, plan, true)],
                             {0}, [Began(first)])
  {
    var first := FirstOf(w, 0, key, initial, now);
    var plan := PlanFor(w.def, w.codec, first, Continue, now);
    acts := OneInserted(w, key, initial, now);
    assert 0 in Exec(w, acts).runs && InsertClashes(Exec(w, acts).runs, FirstOf(w, 1, key, initial, now));
    Extend(w, acts, StartInsert(1, 1, now));
    acts := acts + [StartInsert(1, 1, now)];
    assert Exec(w, acts).flights[1] == Conflicted(key);
    LoadedIsTheOne(map[0 := first], w.def.id, key, 0);
    Extend(w, acts, ConflictLoad(1, now));
    acts := acts + [ConflictLoad(1, now)];
  }

  /**
   Two Starts of one key: the loser joins and saves after the winner.  It is
   told of an error, that there is no run, exactly when the winner's execution
   did not suspend; otherwise it gets the winner's run as a normal result.
   */
  lemma JoiningStartMayFail<S(!new)>(w: World<S>, key: string, initial: S, now: Time) returns (acts: seq<Action<S>>)
    requires Faithful(w.codec) && w.def.durable && w.codec.enc(initial).Some?
    requires PlanFor(w.def, w.codec, FirstOf(w, 0, key, initial, now), Continue, now).Finish?
    ensures Valid(w, acts) && 1 in Exec(w, acts).flights && Exec(w, acts).flights[1].Answered?
    ensures var suspended :=
        PlanFor(w.def, w.codec, FirstOf(w, 0, key, initial, now), Continue, now).snap.status.RunSuspended?;
      Exec(w, acts).flights[1].err == if suspended then None else Some(VersionConflictRunNotFound)
  {
    acts := BothExecute(w, key, initial, now);
    Reachable(w, acts);
    var s := Exec(w, acts);
    SecondCommitLoses(w, s, 0, 1);
    Extend(w, acts, CommitSave(0));
    acts := acts + [CommitSave(0)];
    Extend(w, acts, CommitSave(1));
    acts := acts + [CommitSave(1)];
    Extend(w, acts, Resolve(1));
    acts := acts + [Resolve(1)];
  }

  /**
   What a finished plan writes and what it reports tell the same story: one
   status, the reported state encoded, an attempt counted and the error kept
   exactly on failure, an end time exactly when the run is over.
   */
  lemma SavedSnapshotTellsTheResult<S(!new)>(w: World<S>, runs: Runs, snap: Snapshot, input: Input, now: Time)
    requires Faithful(w.codec) && w.def.durable && Active(snap) && snap.endedAt.None?
    requires OneActive(runs) && snap.runId in runs && runs[snap.runId] == snap
    ensures var p := PlanFor(w.def, w.codec, snap, input, now);
      p.Finish? ==>
        var (outcome, after) := SaveResult(runs, p.snap, snap.version);
        && outcome.Saved? && snap.runId in after && after == runs[snap.runId := after[snap.runId]]
        && TellsTheResult(w.codec, snap, after[snap.runId], p.result, p.err, now)
  {
    var p := PlanFor(w.def, w.codec, snap, input, now);
    if p.Finish? {
      assert StateFor(w.codec, snap, input).Ok?;
      EndingKeepsOneActive(runs, snap.runId, Stored(snap, p.snap));
    }
  }

  /** The stored row agrees with what the caller was told. */
  ghost predicate TellsTheResult<S>(codec: Codec<S>, before: Snapshot, row: Snapshot, result: RunResult<S>,
                                    err: Option<EngineError>, now: Time)
  {
    && result.RunResult? && result.runId == row.runId && result.status == row.status
    && (codec.enc(result.state).Some? ==> codec.dec(row.state) == Some(result.state))
    && (codec.enc(result.state).None? ==> row.status.RunFailed? && row.state == before.state)
    && row.attempts == before.attempts + (if row.status.RunFailed? then 1 else 0)
    && (if row.status.RunFailed? then err.Some? && row.lastError == err
        else err.None? && row.lastError == before.lastError)
    && row.endedAt == (if row.status.RunSuspended? then None else Some(now)) && row.updatedAt == now
    && (row.status.RunSuspended? && result.suspend.Some? ==>
          row.suspendReason == Some(result.suspend.value.reason))
    && row.version == before.version + 1 && row.createdAt == before.createdAt
    && row.maxAttempts == before.maxAttempts && SameKey(row, before)
  }

  // ---------- the calls that change nothing ----------

  /**
   Where the protocol turns a call away at its first statement, the whole call
   alone on the same store gives the same answer and leaves the store as it is.
   A Start is turned away exactly when its state does not encode or its key has
   an active run.
   */
  lemma TurnedAwayAlike<S>(w: World<S>, s: State<S>, key: string, initial: S, resume: Option<Json>, newId: RunId,
                           now: Time)
    requires w.def.durable && OneActive(s.runs)
    ensures var a := Check(w, s, key, initial);
      && (a.Answered? ==> StartOn(s.runs, w.def, w.codec, key, initial, newId, now) == Effect(s.runs, a.result, a.err))
      && (if w.codec.enc(initial).None? then a == Answered(NoResult, Some(EncodeFailed))
          else if exists id :: IsActiveRun(s.runs, w.def.id, key, id)
          then a == Answered(NoResult, Some(RunAlreadyExists))
          else a == Starting(key, initial))
    ensures var a := Pick(w, s, key, resume, now);
      a.Answered? ==>
        ResumeOn(s.runs, w.def, w.codec, key, resume, now) == Effect(s.runs, a.result, a.err)
    ensures var a := Join(w, s, key, now);
      a.Answered? ==> ResumeOnConflict(s.runs, w.def, w.codec, key, now) == Effect(s.runs, a.result, a.err)
  {
  }

  // ---------- lifecycle ----------

  /** What may happen to one run between two moments. */
  predicate Later(a: Snapshot, b: Snapshot) {
    && a.version <= b.version && (a.version == b.version ==> a == b)
    && (!Active(a) ==> a == b)
    && a.cursor <= b.cursor
    && b.runId == a.runId && SameKey(a, b) && b.createdAt == a.createdAt && b.maxAttempts == a.maxAttempts
  }

  /**
   Between any two moments of any run of the protocol: a finished run never
   changes, versions and cursors never go back, identity and key stay, and an
   id that was used never names a different run.
   */
  lemma {:induction false} RunsOnlyMoveForward<S(!new)>(w: World<S>, acts: seq<Action<S>>, k: nat, id: RunId)
    requires Faithful(w.codec) && Valid(w, acts) && k <= |acts| && Valid(w, acts[..k])
    requires id in Exec(w, acts[..k]).used
    ensures id in Exec(w, acts).used
    ensures id in Exec(w, acts).runs ==>
      id in Exec(w, acts[..k]).runs && Later(Exec(w, acts[..k]).runs[id], Exec(w, acts).runs[id])
  {
    if k == |acts| {
      assert acts[..k] == acts;
    } else {
      var n := |acts| - 1;
      assert acts[..n][..k] == acts[..k];
      RunsOnlyMoveForward(w, acts[..n], k, id);
      Reachable(w, acts[..n]);
      StepKeepsInv(w, Exec(w, acts[..n]), acts[n]);
    }
  }

  /**
   In every reachable state: one active run for each key, an end time exactly
   on finished runs, and a cursor within the steps.
   */
  lemma LifecycleHolds<S(!new)>(w: World<S>, acts: seq<Action<S>>, id: RunId)
    requires Faithful(w.codec) && Valid(w, acts) && id in Exec(w, acts).runs
    ensures var r := Exec(w, acts).runs[id];
      && (r.endedAt.Some? <==> r.status.RunSucceeded? || r.status.RunFailed?)
      && InRange(w.def, r) && 1 <= r.version && 1 <= r.maxAttempts && r.runId == id
      && (Active(r) ==> forall other | IsActiveRun(Exec(w, acts).runs, r.workflow, r.key, other) :: other == id)
  {
    Reachable(w, acts);
  }

  /** What an execution does depends on the steps from its cursor on: the completed ones before it never run again. */
  lemma {:induction false} EarlierStepsNeverRerun<S>(a: seq<Step<S>>, b: seq<Step<S>>, i: nat, state: S,
                                                     last: Option<Suspension>)
    requires |a| == |b| && i <= |a| && a[i..] == b[i..]
    ensures RunFrom(a, i, state, last) == RunFrom(b, i, state, last)
    decreases |a| - i
  {
    if i < |a| {
      assert a[i] == a[i..][0] == b[i..][0] == b[i];
      assert a[i + 1..] == a[i..][1..] == b[i..][1..] == b[i + 1..];
      var r := a[i].run(state);
      EarlierStepsNeverRerun(a, b, i + 1, r.out.state, r.out.suspend);
    }
  }
}
