/**
 Which active runs can still change, and which are stuck for good and block
 their key.
 */
module WorkflowProgress {
  import opened Wrappers
  import opened JsonMerge
  import opened WorkflowSteps
  import opened WorkflowEngine
  import opened WorkflowProtocol
  import opened WorkflowSafety

  /** Continuing the run as it is stored ends in something to save; the time of day does not matter. */
  ghost predicate Runnable<S>(w: World<S>, row: Snapshot) {
    PlanFor(w.def, w.codec, row, Continue, 0).Finish?
  }

  lemma PlanIgnoresTime<S>(w: World<S>, row: Snapshot, input: Input, now: Time)
    ensures PlanFor(w.def, w.codec, row, input, now).Finish? <==> PlanFor(w.def, w.codec, row, input, 0).Finish?
  {
  }

  /** The flight may yet change this running row: it executes it, or it is on its way to join it. */
  ghost predicate CanTouch<S>(w: World<S>, row: Snapshot, fl: Flight<S>) {
    match fl
    case Executing(loaded, _, _, plan, _) => loaded == row && plan.Finish?
    case Starting(key, _) => key == row.key && Runnable(w, row)
    case Conflicted(key) => key == row.key && Runnable(w, row)
    case _ => false
  }

  ghost predicate Stuck<S>(w: World<S>, s: State<S>, id: RunId) {
    && id in s.runs && s.runs[id].status.RunRunning?
    && forall f | f in s.flights :: !CanTouch(w, s.runs[id], s.flights[f])
  }

  // ---------- stuck runs stay stuck ----------

  /** Flight f becomes one that cannot touch the row, and the row is as before. */
  lemma FlownStuck<S>(w: World<S>, s: State<S>, s': State<S>, f: FlightId, id: RunId)
    requires Stuck(w, s, id) && id in s'.runs && s'.runs[id] == s.runs[id]
    requires s'.flights.Keys == s.flights.Keys + {f}
    requires forall g | g in s.flights && g != f :: s'.flights[g] == s.flights[g]
    requires !CanTouch(w, s.runs[id], s'.flights[f])
    ensures Stuck(w, s', id)
  {
  }

  lemma TakeCannotTouch<S>(w: World<S>, s: State<S>, id: RunId, other: RunId, input: Input, now: Time, joined: bool)
    requires Inv(w, s) && id in s.runs && other in s.runs && s.runs[id].status.RunRunning?
    requires other == id ==> input.Continue? && !Runnable(w, s.runs[id])
    ensures !CanTouch(w, s.runs[id], Take(w, s.runs[other], input, now, joined))
  {
    PlanIgnoresTime(w, s.runs[other], input, now);
  }

  lemma JoinKeepsStuck<S>(w: World<S>, s: State<S>, f: FlightId, now: Time, id: RunId)
    requires Inv(w, s) && Stuck(w, s, id) && f in s.flights && s.flights[f].Conflicted?
    ensures Stuck(w, Fly(s, f, Join(w, s, s.flights[f].key, now)), id)
  {
    var key := s.flights[f].key;
    match Loaded(s.runs, w.def.id, key) {
      case None =>
      case Some(other) => TakeCannotTouch(w, s, id, other, Continue, now, true);
    }
    FlownStuck(w, s, Fly(s, f, Join(w, s, key, now)), f, id);
  }

  lemma ResumeKeepsStuck<S>(w: World<S>, s: State<S>, f: FlightId, key: string, resume: Option<Json>, now: Time,
                            id: RunId)
    requires Inv(w, s) && Stuck(w, s, id)
    ensures Stuck(w, Fly(s, f, Pick(w, s, key, resume, now)), id)
  {
    match Loaded(s.runs, w.def.id, key) {
      case None =>
      case Some(other) =>
        if s.runs[other].status.RunSuspended? {
          TakeCannotTouch(w, s, id, other, InputOf(resume), now, false);
        }
    }
    FlownStuck(w, s, Fly(s, f, Pick(w, s, key, resume, now)), f, id);
  }

  lemma CheckKeepsStuck<S>(w: World<S>, s: State<S>, f: FlightId, key: string, initial: S, id: RunId)
    requires Inv(w, s) && Stuck(w, s, id)
    ensures Stuck(w, Fly(s, f, Check(w, s, key, initial)), id)
  {
    assert RowInv(w, id, s.runs[id]);
    LoadedIsTheOne(s.runs, w.def.id, s.runs[id].key, id);
    FlownStuck(w, s, Fly(s, f, Check(w, s, key, initial)), f, id);
  }

  lemma InsertKeepsStuck<S>(w: World<S>, s: State<S>, f: FlightId, newId: RunId, now: Time, id: RunId)
    requires Inv(w, s) && Stuck(w, s, id) && f in s.flights && s.flights[f].Starting? && newId !in s.used
    ensures Stuck(w, Insert(w, s, f, newId, now), id) && Insert(w, s, f, newId, now).runs[id] == s.runs[id]
  {
    assert RowInv(w, id, s.runs[id]) && id in s.used;
    assert !CanTouch(w, s.runs[id], s.flights[f]) && FlightInv(w, s, s.flights[f]);
    FlownStuck(w, s, Insert(w, s, f, newId, now), f, id);
  }

  lemma SaveKeepsStuck<S>(w: World<S>, s: State<S>, f: FlightId, id: RunId)
    requires Inv(w, s) && Stuck(w, s, id) && f in s.flights && s.flights[f].Executing?
    ensures Stuck(w, Save(s, f), id) && Save(s, f).runs[id] == s.runs[id]
  {
    var fl := s.flights[f];
    assert FlightInv(w, s, fl) && !CanTouch(w, s.runs[id], fl);
    PlanShape(w, fl.loaded, fl.input, fl.now);
    FlownStuck(w, s, Save(s, f), f, id);
  }

  lemma ReapKeepsStuck<S>(w: World<S>, s: State<S>, f: FlightId, now: Time, id: RunId)
    requires Inv(w, s) && Stuck(w, s, id) && f in s.flights && s.flights[f].Reaping? && s.flights[f].todo != []
    ensures Stuck(w, ReapHead(s, f, now), id) && ReapHead(s, f, now).runs[id] == s.runs[id]
  {
    assert FlightInv(w, s, s.flights[f]);
    assert Held(w, s, s.flights[f].todo[0]);
    FlownStuck(w, s, ReapHead(s, f, now), f, id);
  }

  lemma StepKeepsStuck<S>(w: World<S>, s: State<S>, a: Action<S>, id: RunId)
    requires Inv(w, s) && Stuck(w, s, id) && Enabled(w, s, a)
    ensures Stuck(w, Apply(w, s, a), id) && Apply(w, s, a).runs[id] == s.runs[id]
  {
    match a
    case StartCheck(f, key, initial) => CheckKeepsStuck(w, s, f, key, initial, id);
    case StartInsert(f, newId, now) => InsertKeepsStuck(w, s, f, newId, now, id);
    case ConflictLoad(f, now) => JoinKeepsStuck(w, s, f, now, id);
    case ResumeLoad(f, key, resume, now) => ResumeKeepsStuck(w, s, f, key, resume, now, id);
    case CommitSave(f) => SaveKeepsStuck(w, s, f, id);
    case Resolve(f) => FlownStuck(w, s, Apply(w, s, a), f, id);
    case ReapList(f, ids) => FlownStuck(w, s, Apply(w, s, a), f, id);
    case ReapSave(f, now) => ReapKeepsStuck(w, s, f, now, id);
    case DeleteCompleted(ids) =>
    case Forget(f) =>
  }

  /** The row is in the store as it was. */
  ghost predicate Unchanged<S>(w: World<S>, longer: seq<Action<S>>, id: RunId, row: Snapshot)
    requires Valid(w, longer)
  {
    id in Exec(w, longer).runs && Exec(w, longer).runs[id] == row
  }

  lemma {:induction false} StuckForever<S(!new)>(w: World<S>, acts: seq<Action<S>>, longer: seq<Action<S>>, id: RunId)
    requires Faithful(w.codec) && Valid(w, acts) && Stuck(w, Exec(w, acts), id)
    requires Valid(w, longer) && acts <= longer
    ensures Stuck(w, Exec(w, longer), id) && Unchanged(w, longer, id, Exec(w, acts).runs[id])
  {
    if |longer| == |acts| {
      assert longer == acts;
    } else {
      var n := |longer| - 1;
      assert acts <= longer[..n];
      StuckForever(w, acts, longer[..n], id);
      Reachable(w, longer[..n]);
      StepKeepsStuck(w, Exec(w, longer[..n]), longer[n], id);
    }
  }

  // ---------- every other active run can still change ----------

  /** An execution of the row as stored commits and so changes it. */
  lemma CommitChanges<S(!new)>(w: World<S>, acts: seq<Action<S>>, f: FlightId) returns (longer: seq<Action<S>>)
    requires Faithful(w.codec) && Valid(w, acts) && Commits(Exec(w, acts), f)
    ensures Valid(w, longer) && acts <= longer
    ensures var row := Exec(w, acts).flights[f].loaded; !Unchanged(w, longer, row.runId, row)
  {
    Reachable(w, acts);
    CommitWinsIffUnchanged(w, Exec(w, acts), f);
    Extend(w, acts, CommitSave(f));
    longer := acts + [CommitSave(f)];
  }

  /** A flight that clashed on the row's key joins it and changes it. */
  lemma JoinChanges<S(!new)>(w: World<S>, acts: seq<Action<S>>, f: FlightId, id: RunId) returns (longer: seq<Action<S>>)
    requires Faithful(w.codec) && Valid(w, acts)
    requires var s := Exec(w, acts);
      && id in s.runs && Active(s.runs[id]) && Runnable(w, s.runs[id])
      && f in s.flights && s.flights[f] == Conflicted(s.runs[id].key)
    ensures Valid(w, longer) && acts <= longer && !Unchanged(w, longer, id, Exec(w, acts).runs[id])
  {
    var s := Exec(w, acts);
    Reachable(w, acts);
    assert RowInv(w, id, s.runs[id]);
    LoadedIsTheOne(s.runs, w.def.id, s.runs[id].key, id);
    Extend(w, acts, ConflictLoad(f, 0));
    longer := CommitChanges(w, acts + [ConflictLoad(f, 0)], f);
  }

  /** A flight about to insert on the row's key clashes, joins it and changes it. */
  lemma StartChanges<S(!new)>(w: World<S>, acts: seq<Action<S>>, f: FlightId, id: RunId)
    returns (longer: seq<Action<S>>)
    requires Faithful(w.codec) && Valid(w, acts)
    requires var s := Exec(w, acts);
      && id in s.runs && Active(s.runs[id]) && Runnable(w, s.runs[id])
      && f in s.flights && s.flights[f].Starting? && s.flights[f].key == s.runs[id].key
    ensures Valid(w, longer) && acts <= longer && !Unchanged(w, longer, id, Exec(w, acts).runs[id])
  {
    var s := Exec(w, acts);
    Reachable(w, acts);
    assert RowInv(w, id, s.runs[id]) && FlightInv(w, s, s.flights[f]);
    var newId := AboveAll(s.used);
    Extend(w, acts, StartInsert(f, newId, 0));
    var clashed := acts + [StartInsert(f, newId, 0)];
    ClashGoesToJoin(w, s, f, newId, id);
    longer := JoinChanges(w, clashed, f, id);
  }

  lemma ClashGoesToJoin<S>(w: World<S>, s: State<S>, f: FlightId, newId: RunId, id: RunId)
    requires Inv(w, s) && id in s.runs && Active(s.runs[id])
    requires f in s.flights && s.flights[f].Starting? && s.flights[f].key == s.runs[id].key
    ensures Insert(w, s, f, newId, 0) == Fly(s, f, Conflicted(s.runs[id].key))
  {
    assert FlightInv(w, s, s.flights[f]) && RowInv(w, id, s.runs[id]);
    var snap := FirstSnapshot(w.def, newId, s.flights[f].key, w.codec.enc(s.flights[f].initial).value, 0);
    assert Active(s.runs[id]) && SameKey(s.runs[id], snap);
    assert InsertClashes(s.runs, snap);
  }

  /** The reaper can end any suspended run. */
  lemma ReaperChanges<S(!new)>(w: World<S>, acts: seq<Action<S>>, id: RunId) returns (longer: seq<Action<S>>)
    requires Faithful(w.codec) && Valid(w, acts)
    requires id in Exec(w, acts).runs && Exec(w, acts).runs[id].status.RunSuspended?
    ensures Valid(w, longer) && acts <= longer && !Unchanged(w, longer, id, Exec(w, acts).runs[id])
  {
    var s := Exec(w, acts);
    Reachable(w, acts);
    assert RowInv(w, id, s.runs[id]);
    var f := AboveAll(s.flights.Keys);
    Extend(w, acts, ReapList(f, [id]));
    var listed := acts + [ReapList(f, [id])];
    assert [id][..0] == [] && Snapshots(s.runs, [id]) == [s.runs[id]];
    Extend(w, listed, ReapSave(f, 0));
    longer := listed + [ReapSave(f, 0)];
    EndingKeepsOneActive(s.runs, id, Stored(s.runs[id], ReapedSnap(s.runs[id], 0)));
  }

  lemma OthersCanChange<S(!new)>(w: World<S>, acts: seq<Action<S>>, id: RunId) returns (longer: seq<Action<S>>)
    requires Faithful(w.codec) && Valid(w, acts) && id in Exec(w, acts).runs && Active(Exec(w, acts).runs[id])
    requires !Stuck(w, Exec(w, acts), id)
    ensures Valid(w, longer) && acts <= longer && !Unchanged(w, longer, id, Exec(w, acts).runs[id])
  {
    var s := Exec(w, acts);
    if s.runs[id].status.RunSuspended? {
      longer := ReaperChanges(w, acts, id);
    } else {
      var f :| f in s.flights && CanTouch(w, s.runs[id], s.flights[f]);
      Reachable(w, acts);
      assert RowInv(w, id, s.runs[id]);
      match s.flights[f]
      case Executing(_, _, _, _, _) => longer := CommitChanges(w, acts, f);
      case Starting(_, _) => longer := StartChanges(w, acts, f, id);
      case Conflicted(_) => longer := JoinChanges(w, acts, f, id);
    }
  }

  /**
   An active run never changes again, in any continuation, exactly when it is
   running, no call is executing it as it is stored, and none is on its way to
   join it.
   */
  lemma StuckIff<S(!new)>(w: World<S>, acts: seq<Action<S>>, id: RunId)
    requires Faithful(w.codec) && Valid(w, acts) && id in Exec(w, acts).runs && Active(Exec(w, acts).runs[id])
    ensures (forall longer | Valid(w, longer) && acts <= longer :: Unchanged(w, longer, id, Exec(w, acts).runs[id]))
       <==> Stuck(w, Exec(w, acts), id)
  {
    if Stuck(w, Exec(w, acts), id) {
      forall longer | Valid(w, longer) && acts <= longer
        ensures Unchanged(w, longer, id, Exec(w, acts).runs[id])
      {
        StuckForever(w, acts, longer, id);
      }
    } else {
      var longer := OthersCanChange(w, acts, id);
    }
  }

  /** A stuck run blocks its key: every later Start is turned away, and Resume finds nothing to do. */
  lemma StuckBlocksItsKey<S(!new)>(w: World<S>, acts: seq<Action<S>>, id: RunId, initial: S,
                                   resume: Option<Json>, now: Time)
    requires Faithful(w.codec) && Valid(w, acts) && Stuck(w, Exec(w, acts), id) && w.codec.enc(initial).Some?
    ensures var s := Exec(w, acts);
      && Check(w, s, s.runs[id].key, initial) == Answered(NoResult, Some(RunAlreadyExists))
      && Pick(w, s, s.runs[id].key, resume, now) == Answered(NoResult, None)
  {
    Reachable(w, acts);
    assert RowInv(w, id, Exec(w, acts).runs[id]);
    LoadedIsTheOne(Exec(w, acts).runs, w.def.id, Exec(w, acts).runs[id].key, id);
  }

  /** A Start that crashes after its insert leaves such a run behind. */
  lemma CrashSticks<S(!new)>(w: World<S>, key: string, initial: S, now: Time) returns (acts: seq<Action<S>>)
    requires Faithful(w.codec) && w.codec.enc(initial).Some?
    ensures Valid(w, acts) && Stuck(w, Exec(w, acts), 0) && Exec(w, acts).runs[0].key == key
  {
    acts := [];
    Extend(w, acts, StartCheck(0, key, initial));
    acts := acts + [StartCheck(0, key, initial)];
    Extend(w, acts, StartInsert(0, 0, now));
    acts := acts + [StartInsert(0, 0, now)];
    Extend(w, acts, Forget(0));
    acts := acts + [Forget(0)];
    assert Exec(w, acts).flights == map[];
  }
}
