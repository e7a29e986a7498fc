/** The benchmark orchestrator: a worker loop, its control channel and the API calls that run beside it. */
module Orchestrator {
  import opened Basics
  import opened MatrixStore
  import opened MatrixRuns

  datatype Signal = SignalStart | SignalPause | SignalStop

  const CHANNEL_CAPACITY: nat := 4

  const STEP_NAMES: seq<StepName> :=
    [ResetCluster, DeployController, RunLoadgen, CollectMetrics, TakeBackup, UploadGcs]

  /** One status for each step of a run. */
  type Statuses = q: seq<StepStatus> | |q| == |STEP_NAMES|
    witness [StepPending, StepPending, StepPending, StepPending, StepPending, StepPending]

  /** How far a run has come: the statuses the loop has marked, whether a bucket was configured when it started, and
      whether the path of the upload has been recorded. */
  datatype Progress = Progress(hasBucket: bool, statuses: Statuses, uploaded: bool)

  /** Where a loop goroutine is, between two atomic actions. The copies are what it read from the store. */
  datatype Pc =
    | Top
    | Drained
    | Chosen(id: RunId)
    | Ready(id: RunId, hasBucket: bool)
    | Executing(id: RunId, progress: Progress)
    | Uploading(id: RunId, progress: Progress, copy: RunState)
    | Finishing(id: RunId, progress: Progress, copy: RunState)
    | Returned
    | Paused
    | Exiting

  /** `loops` holds one entry per loop goroutine that has been launched and has not yet cleared `running`. */
  datatype System = System(store: State, running: bool, pauseAfter: bool, channel: seq<Signal>, loops: seq<Pc>)

  /** One atomic action: a mutex-protected call, a channel operation, or a call of the store. `loop` says which
      goroutine acts; the other parameters are what the environment decides. */
  datatype Action =
    | Start
    | Send(signal: Signal)
    | PauseAfterCurrent
    | Edit(op: Op)
    | Drain(loop: nat)
    | Choose(loop: nat)
    | Prepare(loop: nat, made: bool)
    | Begin(loop: nat, startedAt: int)
    | MarkStep(loop: nat, stepStatus: StepStatus)
    | ReadForUpload(loop: nat)
    | WriteUpload(loop: nat, gcsPath: string)
    | ReadFinal(loop: nat)
    | WriteFinal(loop: nat, endedAt: int, error: string)
    | CheckPause(loop: nat)
    | Wake(loop: nat)
    | Exit(loop: nat)

  // ---- The order of the steps ----------------------------------------------------------------------

  predicate Settled(status: StepStatus) {
    status.StepDone? || status.StepError?
  }

  function Unstarted(hasBucket: bool): Progress {
    Progress(hasBucket, seq(|STEP_NAMES|, _ => StepPending), false)
  }

  /** The step the run is at: a failed set-up step ends it, a failed load goes straight to the backup, and without a
      bucket there is no upload. */
  function StepAt(p: Progress): (i: nat)
    ensures i <= |STEP_NAMES|
  {
    var q := p.statuses;
    if !Settled(q[0]) then 0
    else if q[0].StepError? then |STEP_NAMES|
    else if !Settled(q[1]) then 1
    else if q[1].StepError? then |STEP_NAMES|
    else if !Settled(q[2]) then 2
    else if q[2].StepDone? && !Settled(q[3]) then 3
    else if !Settled(q[4]) then 4
    else if p.hasBucket && !Settled(q[5]) then 5
    else |STEP_NAMES|
  }

  const UPLOAD: nat := 5

  /** A pending step is marked running, a running one done or failed; an upload is done once its path is recorded in
      a state that is still there, and fails before that. */
  predicate CanMark(p: Progress, status: StepStatus, hasState: bool) {
    var i := StepAt(p);
    && i < |STEP_NAMES|
    && match p.statuses[i]
       case StepPending => status.StepRunning?
       case StepRunning =>
         || (status.StepDone? && (i == UPLOAD && hasState ==> p.uploaded))
         || (status.StepError? && !p.uploaded)
       case _ => false
  }

  function Marked(p: Progress, status: StepStatus): Progress
    requires StepAt(p) < |STEP_NAMES|
  {
    p.(statuses := p.statuses[StepAt(p) := status])
  }

  predicate AtUpload(p: Progress) {
    StepAt(p) == UPLOAD && p.statuses[UPLOAD].StepRunning? && !p.uploaded
  }

  /** The set-up and the load are what decides about success. */
  predicate Succeeded(p: Progress) {
    p.statuses[0].StepDone? && p.statuses[1].StepDone? && p.statuses[2].StepDone?
  }

  function Begun(startedAt: int): RunState {
    RunState(Running, Some(startedAt), None, "", "", Pending(STEP_NAMES))
  }

  function Ended(state: RunState, endedAt: int, error: Option<string>): RunState {
    match error
    case Some(message) => state.(endedAt := Some(endedAt), status := Failed, errMsg := message)
    case None => state.(endedAt := Some(endedAt), status := Success)
  }

  /** What GetState hands out, the zero value when the run has no state. */
  function ReadState(s: State, id: RunId): RunState {
    if id in s.states then s.states[id] else RunState(Skipped, None, None, "", "", [])
  }

  /** The run is specified and its results directory can be made. */
  predicate CanStart(s: State, id: RunId, made: bool) {
    FindSpec(s.file.runs, id).Some? && made
  }

  /** The store calls the API makes; the other two belong to the loop. */
  predicate ByApi(op: Op) {
    !op.SetState? && !op.SetStepStatus?
  }

  ghost predicate Enabled(s: System, a: Action) {
    match a
    case Start => true
    case Send(_) => |s.channel| < CHANNEL_CAPACITY
    case PauseAfterCurrent => true
    case Edit(op) => ByApi(op) && Admitted(op)
    case Drain(i) => i < |s.loops| && s.loops[i].Top?
    case Choose(i) => i < |s.loops| && s.loops[i].Drained?
    case Prepare(i, _) => i < |s.loops| && s.loops[i].Chosen?
    case Begin(i, _) => i < |s.loops| && s.loops[i].Ready?
    case MarkStep(i, status) =>
      && i < |s.loops| && s.loops[i].Executing?
      && CanMark(s.loops[i].progress, status, s.loops[i].id in s.store.states)
    case ReadForUpload(i) =>
      && i < |s.loops| && s.loops[i].Executing? && AtUpload(s.loops[i].progress)
      && s.loops[i].id in s.store.states
    case WriteUpload(i, _) => i < |s.loops| && s.loops[i].Uploading?
    case ReadFinal(i) => i < |s.loops| && s.loops[i].Executing? && StepAt(s.loops[i].progress) == |STEP_NAMES|
    case WriteFinal(i, _, _) => i < |s.loops| && s.loops[i].Finishing?
    case CheckPause(i) => i < |s.loops| && s.loops[i].Returned?
    case Wake(i) => i < |s.loops| && s.loops[i].Paused? && s.channel != []
    case Exit(i) => i < |s.loops| && s.loops[i].Exiting?
  }

  ghost function Next(s: System, a: Action): System
    requires Enabled(s, a)
  {
    match a
    case Start => if s.running then s else s.(running := true, loops := s.loops + [Top])
    case Send(signal) => s.(channel := s.channel + [signal])
    case PauseAfterCurrent => s.(pauseAfter := true)
    case Edit(op) => s.(store := Apply(s.store, op))
    case Drain(i) =>
      if s.channel == [] then s.(loops := s.loops[i := Drained])
      else s.(channel := s.channel[1..],
              loops := s.loops[i := if s.channel[0] == SignalStop then Exiting else Drained])
    case Choose(i) =>
      var id := FirstQueued(s.store.order, s.store.states);
      s.(loops := s.loops[i := if id == NoRun then Exiting else Chosen(id)])
    case Prepare(i, made) =>
      var id := s.loops[i].id;
      var hasBucket := s.store.file.defaults.gcsBucket != "";
      s.(loops := s.loops[i := if CanStart(s.store, id, made) then Ready(id, hasBucket) else Returned])
    case Begin(i, startedAt) =>
      var pc := s.loops[i];
      s.(store := Apply(s.store, SetState(pc.id, Begun(startedAt))),
         loops := s.loops[i := Executing(pc.id, Unstarted(pc.hasBucket))])
    case MarkStep(i, status) =>
      var pc := s.loops[i];
      s.(store := Apply(s.store, SetStepStatus(pc.id, STEP_NAMES[StepAt(pc.progress)], status)),
         loops := s.loops[i := Executing(pc.id, Marked(pc.progress, status))])
    case ReadForUpload(i) =>
      var pc := s.loops[i];
      s.(loops := s.loops[i := Uploading(pc.id, pc.progress, s.store.states[pc.id])])
    case WriteUpload(i, gcsPath) =>
      var pc := s.loops[i];
      s.(store := Apply(s.store, SetState(pc.id, pc.copy.(gcsPath := gcsPath))),
         loops := s.loops[i := Executing(pc.id, pc.progress.(uploaded := true))])
    case ReadFinal(i) =>
      var pc := s.loops[i];
      s.(loops := s.loops[i := Finishing(pc.id, pc.progress, ReadState(s.store, pc.id))])
    case WriteFinal(i, endedAt, error) =>
      var pc := s.loops[i];
      var failure := if Succeeded(pc.progress) then None else Some(error);
      s.(store := Apply(s.store, SetState(pc.id, Ended(pc.copy, endedAt, failure))),
         loops := s.loops[i := Returned])
    case CheckPause(i) => s.(pauseAfter := false, loops := s.loops[i := if s.pauseAfter then Paused else Top])
    case Wake(i) =>
      var pc := match s.channel[0] case SignalStart => Top case SignalStop => Exiting case SignalPause => Paused;
      s.(channel := s.channel[1..], loops := s.loops[i := pc])
    case Exit(i) => s.(running := false, loops := s.loops[..i] + s.loops[i + 1..])
  }

  // ---- What one benchmark run does -------------------------------------------------------------

  /** How the steps of a run turn out, and what its end records. */
  datatype Outcome = Outcome(reset: bool, deploy: bool, loadgen: bool, collect: bool, backup: bool, upload: bool,
                             gcsPath: string, error: string, startedAt: int, endedAt: int) {
    predicate Succeeds() {
      reset && deploy && loadgen
    }

    /** Past the two set-up steps a run is torn down, backed up and uploaded even when its load failed. */
    predicate ReachesTeardown() {
      reset && deploy
    }
  }

  function StepResult(ok: bool): StepStatus {
    if ok then StepDone else StepError
  }

  /** The status each step ends with. */
  function FinalStatuses(o: Outcome, hasBucket: bool): Statuses {
    [ StepResult(o.reset),
      if o.reset then StepResult(o.deploy) else StepPending,
      if o.reset && o.deploy then StepResult(o.loadgen) else StepPending,
      if o.Succeeds() then StepResult(o.collect) else StepPending,
      if o.ReachesTeardown() then StepResult(o.backup) else StepPending,
      if o.ReachesTeardown() && hasBucket then StepResult(o.upload) else StepPending ]
  }

  function Steps(statuses: Statuses): seq<StepInfo> {
    seq(|STEP_NAMES|, i requires 0 <= i < |STEP_NAMES| => StepInfo(STEP_NAMES[i], statuses[i]))
  }

  /** A run's state when its steps are over and its end is still to be recorded. */
  function AfterSteps(o: Outcome, hasBucket: bool): RunState {
    Begun(o.startedAt).(
      gcsPath := if o.ReachesTeardown() && hasBucket && o.upload then o.gcsPath else "",
      steps := Steps(FinalStatuses(o, hasBucket)))
  }

  function FinalState(o: Outcome, hasBucket: bool): RunState {
    AfterSteps(o, hasBucket).(
      status := if o.Succeeds() then Success else Failed,
      endedAt := Some(o.endedAt),
      errMsg := if o.Succeeds() then "" else o.error)
  }

  lemma {:induction false} EndedIsFinal(o: Outcome, hasBucket: bool)
    ensures Ended(AfterSteps(o, hasBucket), o.endedAt, if o.Succeeds() then None else Some(o.error))
         == FinalState(o, hasBucket)
  {
  }

  /** Marking the i-th step changes the i-th status alone. */
  lemma {:induction false} MarkIth(statuses: Statuses, i: nat, status: StepStatus)
    requires i < |STEP_NAMES|
    ensures WithStep(Steps(statuses), STEP_NAMES[i], status) == Steps(statuses[i := status])
  {
    WithStepAt(Steps(statuses), STEP_NAMES[i], status, i);
  }

  // ---- The orchestrator object -------------------------------------------------------------------

  class Controller {
    const store: Store
    var running: bool
    var pauseAfter: bool
    var controlCh: seq<Signal>
    var loops: seq<Pc>

    ghost function View(): System
      reads this, store
    {
      System(store.View(), running, pauseAfter, controlCh, loops)
    }

    constructor (store: Store)
      ensures this.store == store
      ensures View() == System(store.View(), false, false, [], [])
    {
      this.store := store;
      running := false;
      pauseAfter := false;
      controlCh := [];
      loops := [];
    }

    method Start()
      modifies this
      ensures View() == Next(old(View()), Action.Start)
    {
      if running {
        return;
      }
      running := true;
      loops := loops + [Top];
    }

    method Send(signal: Signal)
      requires Enabled(View(), Action.Send(signal))
      modifies this
      ensures View() == Next(old(View()), Action.Send(signal))
    {
      controlCh := controlCh + [signal];
    }

    method PauseAfterCurrent()
      modifies this
      ensures View() == Next(old(View()), Action.PauseAfterCurrent)
    {
      pauseAfter := true;
    }

    /** The control requests that send a signal. */
    predicate Sends(action: string)
      reads this
    {
      action == "stop" || (action == "start" && running)
    }

    /** One control request. Sending blocks on a full channel, so a request that sends gets through only while there
        is room; cancelling the current run shows in how its steps turn out. */
    method ApplyControl(action: string) returns (known: bool)
      requires Sends(action) ==> |controlCh| < CHANNEL_CAPACITY
      modifies this, store`states
      ensures known <==> action in ["start", "pause", "stop", "retry"]
      ensures action == "start" ==>
                View() == Next(old(View()), if old(running) then Action.Send(SignalStart) else Action.Start)
      ensures action == "pause" ==> View() == Next(old(View()), Action.PauseAfterCurrent)
      ensures action == "stop" ==> View() == Next(old(View()), Action.Send(SignalStop))
      ensures action == "retry" ==> View() == Next(Next(old(View()), Edit(ResetQueued)), Action.Start)
      ensures !known ==> View() == old(View())
    {
      known := true;
      if action == "start" {
        if !running {
          Start();
        } else {
          Send(SignalStart);
        }
      } else if action == "pause" {
        PauseAfterCurrent();
      } else if action == "stop" {
        Send(SignalStop);
      } else if action == "retry" {
        store.ResetQueued();
        if !running {
          Start();
        }
      } else {
        known := false;
      }
    }

    /** The head of the loop: take at most one signal, and stop on SignalStop. */
    method DrainSignal(i: nat)
      requires Enabled(View(), Drain(i))
      modifies this
      ensures View() == Next(old(View()), Drain(i))
    {
      if |controlCh| > 0 {
        var signal := controlCh[0];
        controlCh := controlCh[1..];
        if signal == SignalStop {
          loops := loops[i := Exiting];
          return;
        }
      }
      loops := loops[i := Drained];
    }

    method ChooseRun(i: nat)
      requires Enabled(View(), Choose(i))
      modifies this
      ensures View() == Next(old(View()), Choose(i))
    {
      var runId := store.NextQueued();
      if runId == NoRun {
        loops := loops[i := Exiting];
        return;
      }
      loops := loops[i := Chosen(runId)];
    }

    method CheckPauseFlag(i: nat)
      requires Enabled(View(), CheckPause(i))
      modifies this
      ensures View() == Next(old(View()), CheckPause(i))
    {
      var pause := pauseAfter;
      pauseAfter := false;
      loops := loops[i := if pause then Paused else Top];
    }

    method WakeUp(i: nat)
      requires Enabled(View(), Wake(i))
      modifies this
      ensures View() == Next(old(View()), Wake(i))
    {
      var signal := controlCh[0];
      controlCh := controlCh[1..];
      if signal == SignalStart {
        loops := loops[i := Top];
      } else if signal == SignalStop {
        loops := loops[i := Exiting];
      }
    }

    method ExitLoop(i: nat)
      requires Enabled(View(), Exit(i))
      modifies this
      ensures View() == Next(old(View()), Exit(i))
    {
      running := false;
      loops := loops[..i] + loops[i + 1..];
    }

    /** One run from start to end, with no edit beside it: `started` is false when the spec is gone or the results
        directory cannot be made, and then nothing has changed. */
    method ExecuteRun(id: RunId, made: bool, o: Outcome) returns (started: bool)
      modifies store`states
      ensures started <==> FindSpec(store.file.runs, id).Some? && made
      ensures !started ==> store.states == old(store.states)
      ensures started ==> store.states == old(store.states)[id := FinalState(o, store.file.defaults.gcsBucket != "")]
    {
      var spec := store.GetSpec(id);
      if spec.None? || !made {
        return false;
      }
      var hasBucket := store.file.defaults.gcsBucket != "";
      store.SetState(id, Begun(o.startedAt));
      RunSteps(id, o, hasBucket);
      var final := store.GetState(id);
      EndedIsFinal(o, hasBucket);
      store.SetState(id, Ended(final.value, o.endedAt, if o.Succeeds() then None else Some(o.error)));
      return true;
    }

    /** The steps in their order: a failed set-up step ends the run, a failed load goes straight to the teardown. */
    method RunSteps(id: RunId, o: Outcome, hasBucket: bool)
      requires id in store.states && store.states[id] == Begun(o.startedAt)
      modifies store`states
      ensures store.states == old(store.states)[id := AfterSteps(o, hasBucket)]
    {
      ghost var statuses := Unstarted(hasBucket).statuses;
      assert Pending(STEP_NAMES) == Steps(statuses);
      statuses := RunStep(id, 0, o.reset, statuses);
      if o.reset {
        statuses := RunStep(id, 1, o.deploy, statuses);
        if o.deploy {
          statuses := RunFromLoad(id, o, hasBucket, statuses);
        }
      }
      assert statuses == FinalStatuses(o, hasBucket);
    }

    /** Past the two set-up steps: the load, and the teardown that follows in any case. */
    method RunFromLoad(id: RunId, o: Outcome, hasBucket: bool, ghost statuses: Statuses) returns (ghost after: Statuses)
      requires id in store.states && store.states[id].steps == Steps(statuses)
      requires o.ReachesTeardown()
      requires statuses == [StepDone, StepDone, StepPending, StepPending, StepPending, StepPending]
      modifies store`states
      ensures after == FinalStatuses(o, hasBucket)
      ensures store.states == old(store.states)[id := old(store.states)[id].(
                steps := Steps(after),
                gcsPath := if hasBucket && o.upload then o.gcsPath else old(store.states)[id].gcsPath)]
    {
      after := RunLoad(id, o, statuses);
      after := TearDown(id, o, hasBucket, after);
    }

    /** The load, and the collection that only a successful load is worth. */
    method RunLoad(id: RunId, o: Outcome, ghost statuses: Statuses) returns (ghost after: Statuses)
      requires id in store.states && store.states[id].steps == Steps(statuses)
      modifies store`states
      ensures after == statuses[2 := StepResult(o.loadgen)]
                               [3 := if o.loadgen then StepResult(o.collect) else statuses[3]]
      ensures store.states == old(store.states)[id := old(store.states)[id].(steps := Steps(after))]
    {
      after := RunStep(id, 2, o.loadgen, statuses);
      if o.loadgen {
        after := RunStep(id, 3, o.collect, after);
      }
    }

    /** The backup and, when a bucket is configured, the upload that records its path. */
    method TearDown(id: RunId, o: Outcome, hasBucket: bool, ghost statuses: Statuses)
      returns (ghost after: Statuses)
      requires id in store.states && store.states[id].steps == Steps(statuses)
      modifies store`states
      ensures after == statuses[4 := StepResult(o.backup)][5 := if hasBucket then StepResult(o.upload) else statuses[5]]
      ensures store.states == old(store.states)[id := old(store.states)[id].(
                steps := Steps(after),
                gcsPath := if hasBucket && o.upload then o.gcsPath else old(store.states)[id].gcsPath)]
    {
      after := RunStep(id, 4, o.backup, statuses);
      if hasBucket {
        after := Mark(id, 5, StepRunning, after);
        if o.upload {
          var state := store.GetState(id);
          store.SetState(id, state.value.(gcsPath := o.gcsPath));
        }
        after := Mark(id, 5, StepResult(o.upload), after);
      }
    }

    /** Marks a step running, then done or failed. */
    method RunStep(id: RunId, i: nat, ok: bool, ghost statuses: Statuses) returns (ghost after: Statuses)
      requires i < |STEP_NAMES|
      requires id in store.states && store.states[id].steps == Steps(statuses)
      modifies store`states
      ensures after == statuses[i := StepResult(ok)]
      ensures store.states == old(store.states)[id := old(store.states)[id].(steps := Steps(after))]
    {
      after := Mark(id, i, StepRunning, statuses);
      after := Mark(id, i, StepResult(ok), after);
      assert after == statuses[i := StepResult(ok)];
    }

    method Mark(id: RunId, i: nat, status: StepStatus, ghost statuses: Statuses)
      returns (ghost after: Statuses)
      requires i < |STEP_NAMES|
      requires id in store.states && store.states[id].steps == Steps(statuses)
      modifies store`states
      ensures after == statuses[i := status]
      ensures store.states == old(store.states)[id := old(store.states)[id].(steps := Steps(after))]
    {
      MarkIth(statuses, i, status);
      store.SetStepStatus(id, STEP_NAMES[i], status);
      after := statuses[i := status];
    }

    /** No signal waits, no pause is asked for, and the loop is at its top. */
    ghost predicate Undisturbed()
      reads this, store
    {
      Consistent(store.View()) && loops == [Top] && controlCh == [] && !pauseAfter
    }

    /** One round of the loop on its own; `made` says for which runs the results directory can be made. */
    method Round(made: RunId -> bool, outcomes: RunId -> Outcome) returns (executed: Option<RunId>, ended: bool)
      requires Undisturbed()
      modifies this, store`states
      ensures store.View() == AfterRound(old(store.View()), made, outcomes)
      ensures executed == Tried(old(store.View()), made)
      ensures ended <==> FirstQueued(old(store.order), old(store.states)) == NoRun
      ensures controlCh == [] && !pauseAfter && loops == (if ended then [] else [Top])
      ensures running == (old(running) && !ended)
    {
      executed, ended := None, false;
      QueuedHead(store.order, store.states);
      ghost var s := View();
      DrainSignal(0);
      assert View() == s.(loops := [Drained]);
      ChooseRun(0);
      var first := loops[0];
      assert View() == s.(loops := [first]);
      if first.Exiting? {
        ExitLoop(0);
        ended := true;
        return;
      }
      var runId := first.id;
      SpecOfOrdered(s.store, runId);
      var started := ExecuteRun(runId, made(runId), outcomes(runId));
      if started {
        executed := Some(runId);
      }
      loops := loops[0 := Returned];
      CheckPauseFlag(0);
    }

    /** The first rounds of the loop on its own: no edit, no signal and no pause; `made` says for which runs the
        results directory can be made. It executes the queued runs in matrix order, each once, up to the first that
        cannot start, and ends exactly when there is none of those and the rounds suffice. */
    method RunAll(made: RunId -> bool, outcomes: RunId -> Outcome, rounds: nat)
      returns (executed: seq<RunId>, ended: bool)
      requires Undisturbed()
      modifies this, store`states
      ensures executed == First(Startable(QueuedIn(old(store.order), old(store.states)), made), rounds)
      ensures NoDup(executed)
      ensures executed + QueuedIn(store.order, store.states) == QueuedIn(old(store.order), old(store.states))
      ensures ended <==> && rounds > |QueuedIn(old(store.order), old(store.states))|
                         && forall id :: id in QueuedIn(old(store.order), old(store.states)) ==> made(id)
      ensures Recorded(old(store.states), store.states, executed, outcomes, store.file.defaults.gcsBucket != "")
      ensures controlCh == [] && !pauseAfter && loops == (if ended then [] else [Top])
      ensures running == (old(running) && !ended)
    {
      executed, ended := [], false;
      ghost var start := store.View();
      NothingExecuted(start, made, outcomes);
      ExecutedOnce(store.order, store.states, made, rounds);
      for round := 0 to rounds
        invariant Undisturbed() && running == old(running)
        invariant AfterRounds(start, store.View(), made, outcomes, executed, round)
      {
        ghost var before := store.View();
        var run, last := Round(made, outcomes);
        if last {
          RoundsEnd(start, before, made, outcomes, executed, round);
          ended := true;
          return;
        }
        RoundAdds(start, before, made, outcomes, executed, round);
        if run.Some? {
          executed := executed + [run.value];
        }
      }
      RoundsSpent(start, store.View(), made, outcomes, executed, rounds);
    }
  }

  /** The run that one round executes, if it can start. */
  function Tried(s: State, made: RunId -> bool): Option<RunId> {
    var id := FirstQueued(s.order, s.states);
    if id != NoRun && made(id) then Some(id) else None
  }

  function AfterRound(s: State, made: RunId -> bool, outcomes: RunId -> Outcome): State {
    match Tried(s, made)
    case None => s
    case Some(id) => Executed(s, id, outcomes(id))
  }

  /** The state of the store when so many rounds of the undisturbed loop have executed these runs. */
  ghost predicate AfterRounds(start: State, s: State, made: RunId -> bool, outcomes: RunId -> Outcome,
                              executed: seq<RunId>, round: nat) {
    var queued := QueuedIn(start.order, start.states);
    && Consistent(s) && s.file == start.file && s.order == start.order
    && executed + QueuedIn(s.order, s.states) == queued
    && executed == First(Startable(queued, made), round)
    && (Startable(queued, made) == queued ==> round <= |queued|)
    && Recorded(start.states, s.states, executed, outcomes, start.file.defaults.gcsBucket != "")
  }

  lemma {:induction false} NothingExecuted(start: State, made: RunId -> bool, outcomes: RunId -> Outcome)
    requires Consistent(start)
    ensures AfterRounds(start, start, made, outcomes, [], 0)
  {
    var queued := QueuedIn(start.order, start.states);
    assert [] + queued == queued;
    StartableIsPrefix(queued, made);
  }

  lemma {:induction false} ExecutedOnce(order: seq<RunId>, states: map<RunId, RunState>, made: RunId -> bool, n: nat)
    requires NoDup(order)
    ensures NoDup(First(Startable(QueuedIn(order, states), made), n))
  {
    QueuedNoDup(order, states);
    StartableIsPrefix(QueuedIn(order, states), made);
  }

  lemma {:induction false} RoundAdds(start: State, s: State, made: RunId -> bool, outcomes: RunId -> Outcome,
                                     executed: seq<RunId>, round: nat)
    requires AfterRounds(start, s, made, outcomes, executed, round)
    requires FirstQueued(s.order, s.states) != NoRun
    ensures var next := match Tried(s, made) case None => executed case Some(id) => executed + [id];
            AfterRounds(start, AfterRound(s, made, outcomes), made, outcomes, next, round + 1)
  {
    var id := FirstQueued(s.order, s.states);
    QueuedHead(s.order, s.states);
    StartableNext(QueuedIn(start.order, start.states), made, executed, QueuedIn(s.order, s.states), round);
    if made(id) {
      RoundExecutes(start, s, made, outcomes, executed, round);
    } else {
      assert AfterRound(s, made, outcomes) == s;
    }
  }

  lemma {:induction false} RoundExecutes(start: State, s: State, made: RunId -> bool, outcomes: RunId -> Outcome,
                                         executed: seq<RunId>, round: nat)
    requires AfterRounds(start, s, made, outcomes, executed, round)
    requires Tried(s, made).Some?
    requires executed + [Tried(s, made).value] == First(Startable(QueuedIn(start.order, start.states), made), round + 1)
    requires Startable(QueuedIn(start.order, start.states), made) == QueuedIn(start.order, start.states) ==>
               round + 1 <= |QueuedIn(start.order, start.states)|
    ensures AfterRounds(start, AfterRound(s, made, outcomes), made, outcomes, executed + [Tried(s, made).value],
                        round + 1)
  {
    var id := Tried(s, made).value;
    LoopStep(s, start.states, executed, id, outcomes);
  }

  lemma {:induction false} RoundsEnd(start: State, s: State, made: RunId -> bool, outcomes: RunId -> Outcome,
                                     executed: seq<RunId>, round: nat)
    requires AfterRounds(start, s, made, outcomes, executed, round) && FirstQueued(s.order, s.states) == NoRun
    ensures var queued := QueuedIn(start.order, start.states);
            && executed == queued == Startable(queued, made) && round == |queued|
            && forall id :: id in queued ==> made(id)
  {
    QueuedHead(s.order, s.states);
    assert executed + [] == executed;
    StartableIsPrefix(QueuedIn(start.order, start.states), made);
  }

  lemma {:induction false} RoundsSpent(start: State, s: State, made: RunId -> bool, outcomes: RunId -> Outcome,
                                       executed: seq<RunId>, rounds: nat)
    requires AfterRounds(start, s, made, outcomes, executed, rounds)
    ensures var queued := QueuedIn(start.order, start.states);
            rounds > |queued| ==> exists id :: id in queued && !made(id)
  {
    StartableIsPrefix(QueuedIn(start.order, start.states), made);
  }

  /** The IDs up to the first that cannot be started. */
  function Startable(ids: seq<RunId>, made: RunId -> bool): seq<RunId> {
    if ids == [] || !made(ids[0]) then [] else [ids[0]] + Startable(ids[1..], made)
  }

  function First<T>(q: seq<T>, n: nat): seq<T> {
    if n < |q| then q[..n] else q
  }

  lemma {:induction false} StartableIsPrefix(ids: seq<RunId>, made: RunId -> bool)
    ensures var p := Startable(ids, made);
            && |p| <= |ids| && p == ids[..|p|]
            && (forall i :: 0 <= i < |p| ==> made(ids[i]))
            && (|p| < |ids| ==> !made(ids[|p|]))
            && (p == ids <==> forall id :: id in ids ==> made(id))
  {
    if ids != [] && made(ids[0]) {
      StartableIsPrefix(ids[1..], made);
      assert ids == [ids[0]] + ids[1..];
    }
  }

  /** One more round executes the next queued run if that can start, and nothing otherwise. */
  lemma {:induction false} StartableNext(ids: seq<RunId>, made: RunId -> bool, executed: seq<RunId>,
                                         rest: seq<RunId>, round: nat)
    requires executed == First(Startable(ids, made), round) && executed + rest == ids && rest != []
    ensures First(Startable(ids, made), round + 1) == if made(rest[0]) then executed + [rest[0]] else executed
    ensures Startable(ids, made) == ids ==> round + 1 <= |ids|
  {
    StartableIsPrefix(ids, made);
    assert ids[|executed|] == rest[0];
  }

  lemma {:induction false} LoopStep(s: State, start: map<RunId, RunState>, executed: seq<RunId>, id: RunId,
                                    outcomes: RunId -> Outcome)
    requires Consistent(s) && id != NoRun && id == FirstQueued(s.order, s.states)
    requires Recorded(start, s.states, executed, outcomes, s.file.defaults.gcsBucket != "")
    requires executed + QueuedIn(s.order, s.states) == QueuedIn(s.order, start)
    ensures var after := Executed(s, id, outcomes(id));
            && Consistent(after)
            && Recorded(start, after.states, executed + [id], outcomes, s.file.defaults.gcsBucket != "")
            && executed + [id] + QueuedIn(after.order, after.states) == QueuedIn(s.order, start)
            && |QueuedIn(after.order, after.states)| < |QueuedIn(s.order, s.states)|
  {
    QueuedHead(s.order, s.states);
    var queued := QueuedIn(s.order, s.states);
    QueuedMember(s.order, s.states, id);
    assert id in queued;
    QueuedAfterRun(s.order, s.states, id, FinalState(outcomes(id), s.file.defaults.gcsBucket != ""));
    assert executed + queued == executed + [id] + queued[1..];
  }

  function Executed(s: State, id: RunId, o: Outcome): (t: State)
    ensures t.file == s.file && t.order == s.order
  {
    s.(states := s.states[id := FinalState(o, s.file.defaults.gcsBucket != "")])
  }

  /** The executed runs have ended as their outcomes say; no other state has changed. */
  ghost predicate Recorded(before: map<RunId, RunState>, after: map<RunId, RunState>, executed: seq<RunId>,
                           outcomes: RunId -> Outcome, hasBucket: bool) {
    && after.Keys == before.Keys
    && forall id :: id in after ==>
         after[id] == if id in executed then FinalState(outcomes(id), hasBucket) else before[id]
  }

  // ---- The queued runs as a filter of the order --------------------------------------------------------

  /** The queued IDs in order. */
  function QueuedIn(order: seq<RunId>, states: map<RunId, RunState>): seq<RunId> {
    if order == [] then []
    else if order[0] in states && states[order[0]].status == Queued then [order[0]] + QueuedIn(order[1..], states)
    else QueuedIn(order[1..], states)
  }

  lemma {:induction false} QueuedMember(order: seq<RunId>, states: map<RunId, RunState>, id: RunId)
    ensures id in QueuedIn(order, states) <==> id in order && IsQueued(states, id)
  {
    if order != [] {
      QueuedMember(order[1..], states, id);
      assert id in order <==> id == order[0] || id in order[1..];
    }
  }

  lemma {:induction false} QueuedNoDup(order: seq<RunId>, states: map<RunId, RunState>)
    requires NoDup(order)
    ensures NoDup(QueuedIn(order, states))
  {
    if order != [] {
      QueuedNoDup(order[1..], states);
      QueuedMember(order[1..], states, order[0]);
      var rest := QueuedIn(order[1..], states);
      assert order[0] !in order[1..];
      PrependNoDup(order[0], rest);
    }
  }

  lemma {:induction false} PrependNoDup<T(!new)>(x: T, q: seq<T>)
    requires NoDup(q) && x !in q
    ensures NoDup([x] + q)
  {
  }

  /** The loop's choice is the head of the filter. */
  lemma {:induction false} QueuedHead(order: seq<RunId>, states: map<RunId, RunState>)
    requires NoRun !in order
    ensures FirstQueued(order, states) == if QueuedIn(order, states) == [] then NoRun else QueuedIn(order, states)[0]
    ensures QueuedIn(order, states) == [] <==> FirstQueued(order, states) == NoRun
    ensures FirstQueued(order, states) != NoRun ==> FirstQueued(order, states) in order
  {
    if order != [] {
      assert order[0] in order;
      QueuedHead(order[1..], states);
    }
  }

  lemma {:induction false} QueuedUnaffected(order: seq<RunId>, states: map<RunId, RunState>, id: RunId, state: RunState)
    requires id !in order
    ensures QueuedIn(order, states[id := state]) == QueuedIn(order, states)
  {
    if order != [] {
      assert order[0] in order;
      QueuedUnaffected(order[1..], states, id, state);
    }
  }

  /** Once the chosen run is no longer queued, the filter has lost its head and nothing else. */
  lemma {:induction false} QueuedAfterRun(order: seq<RunId>, states: map<RunId, RunState>, id: RunId, state: RunState)
    requires NoDup(order) && QueuedIn(order, states) != [] && id == QueuedIn(order, states)[0] && state.status != Queued
    ensures QueuedIn(order, states[id := state]) == QueuedIn(order, states)[1..]
  {
    if order[0] in states && states[order[0]].status == Queued {
      assert order[0] !in order[1..];
      QueuedUnaffected(order[1..], states, id, state);
    } else {
      QueuedAfterRun(order[1..], states, id, state);
    }
  }

  lemma {:induction false} SpecOfOrdered(s: State, id: RunId)
    requires Consistent(s) && id in s.order
    ensures FindSpec(s.file.runs, id).Some?
  {
    assert id in Ids(s.file.runs);
    var i :| 0 <= i < |s.file.runs| && Ids(s.file.runs)[i] == id;
    FoundAt(s.file.runs, id, i);
  }

  lemma {:induction false} FoundAt(runs: seq<RunSpec>, id: RunId, i: nat)
    requires i < |runs| && runs[i].id == id
    ensures FindSpec(runs, id).Some?
  {
    if runs[0].id != id {
      FoundAt(runs[1..], id, i - 1);
    }
  }
}
