/** What holds in every interleaving of the worker loop with the API calls. */
module OrchestratorRuns {
  import opened Basics
  import opened MatrixStore
  import opened MatrixRuns
  import opened Orchestrator

  /** A run of the system: every action enabled where it is taken. */
  ghost predicate IsRun(s: System, actions: seq<Action>)
    decreases |actions|, 0
  {
    actions == [] || (IsRun(s, Init(actions)) && Enabled(RunFrom(s, Init(actions)), Last(actions)))
  }

  ghost function RunFrom(s: System, actions: seq<Action>): System
    requires IsRun(s, actions)
    decreases |actions|, 1
  {
    if actions == [] then s else Next(RunFrom(s, Init(actions)), Last(actions))
  }

  // ---- One run at a time --------------------------------------------------------------------

  /** The loop is between writing "running" and writing the final status of this run. */
  predicate IsExecuting(pc: Pc, id: RunId) {
    (pc.Executing? || pc.Uploading? || pc.Finishing?) && pc.id == id
  }

  predicate Executes(s: System, id: RunId) {
    s.loops != [] && IsExecuting(s.loops[0], id)
  }

  ghost predicate IsRunning(s: System, id: RunId) {
    StatusOf(s.store, id) == Some(Running)
  }

  ghost predicate Invariant(s: System) {
    && |s.loops| == (if s.running then 1 else 0)
    && |s.channel| <= CHANNEL_CAPACITY
    && Consistent(s.store)
    && (forall id :: IsRunning(s, id) <==> Executes(s, id))
    && (s.loops != [] && (s.loops[0].Uploading? || s.loops[0].Finishing?) ==> s.loops[0].copy.status == Running)
    && (s.loops != [] && (s.loops[0].Chosen? || s.loops[0].Ready?) ==> s.loops[0].id != NoRun)
  }

  /** A freshly loaded store and an orchestrator nobody has started. */
  ghost predicate Fresh(s: System) {
    && !s.running && s.channel == [] && s.loops == []
    && exists mf: MatrixFile ::
         NoDup(Ids(mf.runs)) && NoRun !in Ids(mf.runs) && s.store == Replaced(State(mf, [], map[]), mf)
  }

  lemma {:induction false} FreshInvariant(s: System)
    requires Fresh(s)
    ensures Invariant(s)
  {
    var mf: MatrixFile :|
      NoDup(Ids(mf.runs)) && NoRun !in Ids(mf.runs) && s.store == Replaced(State(mf, [], map[]), mf);
    ReplaceConsistent(State(mf, [], map[]), mf);
  }

  /** No store call of the API touches the state of a running run, and none makes a run running. */
  lemma {:induction false} ApiKeepsRunning(s: State, op: Op, id: RunId)
    requires ByApi(op)
    ensures StatusOf(s, id) == Some(Running) ==> id in Apply(s, op).states && Apply(s, op).states[id] == s.states[id]
    ensures StatusOf(Apply(s, op), id) == Some(Running) <==> StatusOf(s, id) == Some(Running)
  {
  }

  lemma {:induction false} EditKeepsInvariant(s: System, op: Op)
    requires Invariant(s) && Enabled(s, Edit(op))
    ensures Invariant(Next(s, Edit(op)))
  {
    OpKeepsConsistent(s.store, op);
    var s' := Next(s, Edit(op));
    forall id
      ensures IsRunning(s', id) <==> Executes(s', id)
    {
      ApiKeepsRunning(s.store, op, id);
      assert IsRunning(s, id) <==> Executes(s, id);
    }
  }

  /** Writing the state of the run the loop is at, and moving the loop on, keeps the invariant when the new status is
      "running" exactly when the loop is executing that run afterwards. */
  lemma {:induction false} LoopWriteKeepsInvariant(s: System, id: RunId, state: RunState, pc: Pc)
    requires Invariant(s) && s.loops != []
    requires forall other :: other != id ==> !Executes(s, other)
    requires state.status == Running <==> IsExecuting(pc, id)
    requires forall other :: other != id ==> !IsExecuting(pc, other)
    requires !pc.Uploading? && !pc.Finishing? && !pc.Chosen? && !pc.Ready?
    ensures Invariant(s.(store := Apply(s.store, SetState(id, state)), loops := s.loops[0 := pc]))
  {
    OpKeepsConsistent(s.store, SetState(id, state));
    var s' := s.(store := Apply(s.store, SetState(id, state)), loops := s.loops[0 := pc]);
    forall other
      ensures IsRunning(s', other) <==> Executes(s', other)
    {
      assert IsRunning(s, other) <==> Executes(s, other);
    }
  }

  lemma {:induction false} MarkKeepsInvariant(s: System, a: Action)
    requires Invariant(s) && Enabled(s, a) && a.MarkStep?
    ensures Invariant(Next(s, a))
  {
    var op := SetStepStatus(s.loops[0].id, STEP_NAMES[StepAt(s.loops[0].progress)], a.stepStatus);
    OpKeepsConsistent(s.store, op);
    var s' := Next(s, a);
    forall id
      ensures IsRunning(s', id) <==> Executes(s', id)
    {
      assert IsRunning(s, id) <==> Executes(s, id);
    }
  }

  /** Moving the loop without touching the store. */
  lemma {:induction false} MoveKeepsInvariant(s: System, s': System)
    requires Invariant(s) && s'.store == s.store && s'.running == s.running && |s'.loops| == |s.loops|
    requires |s'.channel| <= CHANNEL_CAPACITY
    requires forall id :: Executes(s', id) <==> Executes(s, id)
    requires s'.loops != [] && (s'.loops[0].Uploading? || s'.loops[0].Finishing?) ==>
               s'.loops[0].copy.status == Running
    requires s'.loops != [] && (s'.loops[0].Chosen? || s'.loops[0].Ready?) ==> s'.loops[0].id != NoRun
    ensures Invariant(s')
  {
    forall id
      ensures IsRunning(s', id) <==> Executes(s', id)
    {
      assert IsRunning(s, id) <==> Executes(s, id);
    }
  }

  lemma {:induction false} ActionKeepsInvariant(s: System, a: Action)
    requires Invariant(s) && Enabled(s, a)
    ensures Invariant(Next(s, a))
  {
    match a
    case Edit(op) => EditKeepsInvariant(s, op);
    case MarkStep(_, _) => MarkKeepsInvariant(s, a);
    case Begin(_, _) => WriteKeepsInvariant(s, a);
    case WriteUpload(_, _) => WriteKeepsInvariant(s, a);
    case WriteFinal(_, _, _) => WriteKeepsInvariant(s, a);
    case ReadForUpload(_) => ReadKeepsInvariant(s, a);
    case ReadFinal(_) => ReadKeepsInvariant(s, a);
    case Start =>
      if !s.running {
        StartKeepsInvariant(s);
      }
    case Exit(i) => ExitKeepsInvariant(s, i);
    case _ => MoveKeepsInvariant(s, Next(s, a));
  }

  lemma {:induction false} WriteKeepsInvariant(s: System, a: Action)
    requires Invariant(s) && Enabled(s, a) && (a.Begin? || a.WriteUpload? || a.WriteFinal?)
    ensures Invariant(Next(s, a))
  {
    var pc := s.loops[0];
    match a
    case Begin(_, startedAt) =>
      LoopWriteKeepsInvariant(s, pc.id, Begun(startedAt), Executing(pc.id, Unstarted(pc.hasBucket)));
    case WriteUpload(_, gcsPath) =>
      LoopWriteKeepsInvariant(s, pc.id, pc.copy.(gcsPath := gcsPath),
                              Executing(pc.id, pc.progress.(uploaded := true)));
    case WriteFinal(_, endedAt, error) =>
      var failure := if Succeeded(pc.progress) then None else Some(error);
      LoopWriteKeepsInvariant(s, pc.id, Ended(pc.copy, endedAt, failure), Returned);
  }

  lemma {:induction false} ReadKeepsInvariant(s: System, a: Action)
    requires Invariant(s) && Enabled(s, a) && (a.ReadForUpload? || a.ReadFinal?)
    ensures Invariant(Next(s, a))
  {
    assert Executes(s, s.loops[0].id);
    assert IsRunning(s, s.loops[0].id);
    MoveKeepsInvariant(s, Next(s, a));
  }

  lemma {:induction false} StartKeepsInvariant(s: System)
    requires Invariant(s) && !s.running
    ensures Invariant(Next(s, Start))
  {
    var s' := Next(s, Start);
    forall id
      ensures IsRunning(s', id) <==> Executes(s', id)
    {
      assert IsRunning(s, id) <==> Executes(s, id);
    }
  }

  lemma {:induction false} ExitKeepsInvariant(s: System, i: nat)
    requires Invariant(s) && Enabled(s, Exit(i))
    ensures Invariant(Next(s, Exit(i)))
  {
    var s' := Next(s, Exit(i));
    assert s'.loops == [];
    forall id
      ensures IsRunning(s', id) <==> Executes(s', id)
    {
      assert IsRunning(s, id) <==> Executes(s, id);
    }
  }

  lemma {:induction false} InvariantAlways(s: System, actions: seq<Action>)
    requires Invariant(s) && IsRun(s, actions)
    ensures Invariant(RunFrom(s, actions))
  {
    if actions != [] {
      InvariantAlways(s, Init(actions));
      ActionKeepsInvariant(RunFrom(s, Init(actions)), Last(actions));
    }
  }

  /** One run at a time: in every interleaving there is at most one loop, at most one run has status "running", and a
      run has it exactly while that loop is executing it, whatever the API calls do meanwhile. */
  lemma {:induction false} OneRunAtATime(s: System, actions: seq<Action>, id: RunId, other: RunId)
    requires Fresh(s) && IsRun(s, actions)
    ensures var t := RunFrom(s, actions);
            && |t.loops| == (if t.running then 1 else 0)
            && (IsRunning(t, id) <==> Executes(t, id))
            && (IsRunning(t, id) && IsRunning(t, other) ==> id == other)
  {
    FreshInvariant(s);
    InvariantAlways(s, actions);
  }

  /** Only the loop itself ends a running run: any other action leaves its whole state untouched. */
  lemma {:induction false} RunningStateIsTheLoops(s: System, actions: seq<Action>, a: Action, id: RunId)
    requires Fresh(s) && IsRun(s, actions) && Enabled(RunFrom(s, actions), a)
    requires IsRunning(RunFrom(s, actions), id) && !a.MarkStep? && !a.WriteUpload? && !a.WriteFinal?
    ensures var t := RunFrom(s, actions);
            id in Next(t, a).store.states && Next(t, a).store.states[id] == t.store.states[id]
  {
    var t := RunFrom(s, actions);
    FreshInvariant(s);
    InvariantAlways(s, actions);
    assert Executes(t, id);
    if a.Edit? {
      ApiKeepsRunning(t.store, a.op, id);
    }
  }

  // ---- The response to a stop ---------------------------------------------------------------------

  /** The number of signals ahead of the first stop. */
  function AheadOfStop(channel: seq<Signal>): nat {
    if channel == [] || channel[0] == SignalStop then 0 else 1 + AheadOfStop(channel[1..])
  }

  lemma {:induction false} AheadOfAnyStop(channel: seq<Signal>, k: nat)
    requires k < |channel| && channel[k] == SignalStop
    ensures AheadOfStop(channel) <= k
  {
    if channel[0] != SignalStop {
      AheadOfAnyStop(channel[1..], k - 1);
    }
  }

  lemma {:induction false} AheadOfAppended(channel: seq<Signal>, signal: Signal)
    requires SignalStop in channel
    ensures AheadOfStop(channel + [signal]) == AheadOfStop(channel)
  {
    assert (channel + [signal])[0] == channel[0];
    if channel[0] != SignalStop {
      assert channel == [channel[0]] + channel[1..];
      assert (channel + [signal])[1..] == channel[1..] + [signal];
      AheadOfAppended(channel[1..], signal);
    }
  }

  /** A loop past its drain may begin one more run before it looks at the channel again. */
  function Committed(s: System): nat {
    if s.loops != [] && (s.loops[0].Drained? || s.loops[0].Chosen? || s.loops[0].Ready?) then 1 else 0
  }

  predicate ConsumesStop(s: System, a: Action) {
    (a.Drain? || a.Wake?) && s.channel != [] && s.channel[0] == SignalStop
  }

  function Begins(a: Action): nat {
    if a.Begin? then 1 else 0
  }

  /** Every begun run is paid for by a signal ahead of the stop or by the commitment. */
  lemma {:induction false} BeginIsPaidFor(s: System, a: Action)
    requires Invariant(s) && Enabled(s, a) && SignalStop in s.channel && !ConsumesStop(s, a)
    ensures SignalStop in Next(s, a).channel
    ensures AheadOfStop(Next(s, a).channel) + Committed(Next(s, a)) + Begins(a) <= AheadOfStop(s.channel) + Committed(s)
  {
    match a
    case Send(signal) =>
      AheadOfAppended(s.channel, signal);
      assert s.channel[0] in s.channel + [signal];
    case Drain(i) => TailHasStop(s.channel);
    case Wake(i) => TailHasStop(s.channel);
    case _ =>
  }

  lemma {:induction false} TailHasStop(channel: seq<Signal>)
    requires SignalStop in channel && channel[0] != SignalStop
    ensures SignalStop in channel[1..]
  {
    assert channel == [channel[0]] + channel[1..];
  }

  function BegunRuns(actions: seq<Action>): nat {
    if actions == [] then 0 else BegunRuns(Init(actions)) + Begins(Last(actions))
  }

  /** The waiting stop has not been taken from the channel by any of these actions. */
  ghost predicate StopStillWaits(s: System, actions: seq<Action>)
    requires IsRun(s, actions)
  {
    actions == [] ||
    (StopStillWaits(s, Init(actions)) && !ConsumesStop(RunFrom(s, Init(actions)), Last(actions)))
  }

  lemma {:induction false} BegunWhileStopWaits(s: System, actions: seq<Action>)
    requires Invariant(s) && SignalStop in s.channel && IsRun(s, actions) && StopStillWaits(s, actions)
    ensures var t := RunFrom(s, actions);
            && SignalStop in t.channel
            && AheadOfStop(t.channel) + Committed(t) + BegunRuns(actions) <= AheadOfStop(s.channel) + Committed(s)
  {
    if actions != [] {
      BegunWhileStopWaits(s, Init(actions));
      InvariantAlways(s, Init(actions));
      BeginIsPaidFor(RunFrom(s, Init(actions)), Last(actions));
    }
  }

  /** Bounded response: once a stop waits in the channel with k signals ahead of it, at most k + 1 further runs are
      begun before some loop takes a stop, and so never more than the channel's capacity. */
  lemma {:induction false} BoundedStop(s: System, before: seq<Action>, after: seq<Action>, k: nat)
    requires Fresh(s) && IsRun(s, before)
    requires k < |RunFrom(s, before).channel| && RunFrom(s, before).channel[k] == SignalStop
    requires IsRun(RunFrom(s, before), after) && StopStillWaits(RunFrom(s, before), after)
    ensures BegunRuns(after) <= k + 1 <= CHANNEL_CAPACITY
  {
    var t := RunFrom(s, before);
    FreshInvariant(s);
    InvariantAlways(s, before);
    assert t.channel[k] in t.channel;
    BegunWhileStopWaits(t, after);
    AheadOfAnyStop(t.channel, k);
  }

  /** The other side of it: a stop sent while nothing runs stays in the channel and ends the next session before its
      first run, leaving the store as it was. */
  lemma {:induction false} StaleStopEndsNextSession(s: System)
    requires Invariant(s) && !s.running && s.channel != [] && s.channel[0] == SignalStop
    ensures var started := Next(s, Start);
            && Enabled(started, Drain(0))
            && Enabled(Next(started, Drain(0)), Exit(0))
            && Next(Next(started, Drain(0)), Exit(0)) == s.(channel := s.channel[1..])
  {
  }

  // ---- What a finished run says -------------------------------------------------------------------------

  predicate StepIs(state: RunState, i: nat, status: StepStatus)
    requires i < |STEP_NAMES|
  {
    |state.steps| == |STEP_NAMES| && state.steps[i] == StepInfo(STEP_NAMES[i], status)
  }

  predicate SetUpAndLoaded(state: RunState) {
    StepIs(state, 0, StepDone) && StepIs(state, 1, StepDone) && StepIs(state, 2, StepDone)
  }

  predicate StepOver(state: RunState, i: nat)
    requires i < |STEP_NAMES|
  {
    StepIs(state, i, StepDone) || StepIs(state, i, StepError)
  }

  /** Step i failed and the ones before it are done. After a failed set-up step nothing more has started; a failed load
      skips the collection, but not the backup. */
  ghost predicate FailedAt(state: RunState, i: nat)
    requires i < 3
  {
    && StepIs(state, i, StepError)
    && (forall j: nat :: j < i ==> StepIs(state, j, StepDone))
    && (forall j: nat :: i < j <= 3 ==> StepIs(state, j, StepPending))
    && (i < 2 ==> StepIs(state, 4, StepPending) && StepIs(state, UPLOAD, StepPending))
    && (i == 2 ==> StepOver(state, 4))
  }

  predicate HasEnded(state: RunState) {
    state.status == Success || state.status == Failed
  }

  /** An ended run has succeeded exactly when its set-up and its load are done, and then its collection and its backup
      are over too; a failed one failed in exactly one of those three steps; it has both times, no error unless it
      failed, and a recorded path only if the upload is done. */
  ghost predicate TellsTheTruth(state: RunState) {
    HasEnded(state) ==>
      && (state.status == Success <==> SetUpAndLoaded(state))
      && (state.status == Success ==> StepOver(state, 3) && StepOver(state, 4) && state.errMsg == "")
      && (state.status == Failed ==> exists i: nat :: i < 3 && FailedAt(state, i))
      && (state.gcsPath != "" ==> StepIs(state, UPLOAD, StepDone))
      && state.startedAt.Some? && state.endedAt.Some?
  }

  /** The steps are taken in their order: none has started before those ahead of it are over. */
  predicate InOrder(p: Progress) {
    var q := p.statuses;
    && (!q[0].StepDone? ==> q[1].StepPending?)
    && (!q[1].StepDone? ==> q[2].StepPending?)
    && (!q[2].StepDone? ==> q[3].StepPending?)
    && (!Settled(q[2]) || (q[2].StepDone? && !Settled(q[3])) ==> q[4].StepPending?)
    && (!Settled(q[4]) || !p.hasBucket ==> q[5].StepPending?)
    && (p.uploaded ==> q[5].StepRunning? || q[5].StepDone?)
  }

  /** The stored state of a run under way shows the loop's progress. */
  predicate Shows(state: RunState, p: Progress) {
    && state.steps == Steps(p.statuses) && InOrder(p)
    && (state.gcsPath != "" ==> p.uploaded)
    && state.startedAt.Some? && state.errMsg == ""
  }

  ghost predicate Truthful(s: System) {
    && (forall id :: id in s.store.states ==> TellsTheTruth(s.store.states[id]))
    && (s.loops != [] ==>
          match s.loops[0]
          case Executing(id, p) => id in s.store.states && Shows(s.store.states[id], p)
          case Uploading(id, p, copy) =>
            id in s.store.states && copy == s.store.states[id] && Shows(copy, p) && AtUpload(p)
          case Finishing(id, p, copy) =>
            id in s.store.states && copy == s.store.states[id] && Shows(copy, p) && StepAt(p) == |STEP_NAMES|
          case _ => true)
  }

  /** At the end of the steps the progress says why it is the end. */
  lemma {:induction false} EndTellsTheTruth(state: RunState, p: Progress, endedAt: int, error: string)
    requires Shows(state, p) && StepAt(p) == |STEP_NAMES|
    ensures TellsTheTruth(Ended(state, endedAt, if Succeeded(p) then None else Some(error)))
  {
    var ended := Ended(state, endedAt, if Succeeded(p) then None else Some(error));
    assert forall i: nat :: i < |STEP_NAMES| ==> StepIs(ended, i, p.statuses[i]);
    if !Succeeded(p) {
      var i := if !p.statuses[0].StepDone? then 0 else if !p.statuses[1].StepDone? then 1 else 2;
      assert FailedAt(ended, i);
    }
  }

  lemma {:induction false} MarkKeepsOrder(p: Progress, status: StepStatus)
    requires InOrder(p) && CanMark(p, status, true)
    ensures InOrder(Marked(p, status))
  {
  }

  lemma {:induction false} ApiKeepsTruth(s: State, op: Op, id: RunId)
    requires ByApi(op) && id in Apply(s, op).states
    requires id in s.states ==> TellsTheTruth(s.states[id])
    ensures TellsTheTruth(Apply(s, op).states[id])
  {
  }

  lemma {:induction false} EditKeepsTruth(s: System, op: Op)
    requires Invariant(s) && Truthful(s) && Enabled(s, Edit(op))
    ensures Truthful(Next(s, Edit(op)))
  {
    var t := Next(s, Edit(op));
    forall id | id in t.store.states
      ensures TellsTheTruth(t.store.states[id])
    {
      ApiKeepsTruth(s.store, op, id);
    }
    if s.loops != [] && (s.loops[0].Executing? || s.loops[0].Uploading? || s.loops[0].Finishing?) {
      assert Executes(s, s.loops[0].id);
      ApiKeepsRunning(s.store, op, s.loops[0].id);
    }
  }

  lemma {:induction false} MarkKeepsTruth(s: System, a: Action)
    requires Invariant(s) && Truthful(s) && Enabled(s, a) && a.MarkStep?
    ensures Truthful(Next(s, a))
  {
    var (id, p) := (s.loops[0].id, s.loops[0].progress);
    assert Executes(s, id) && IsRunning(s, id);
    MarkIth(p.statuses, StepAt(p), a.stepStatus);
    MarkKeepsOrder(p, a.stepStatus);
  }

  lemma {:induction false} ActionKeepsTruth(s: System, a: Action)
    requires Invariant(s) && Truthful(s) && Enabled(s, a)
    ensures Truthful(Next(s, a))
  {
    match a
    case Edit(op) => EditKeepsTruth(s, op);
    case MarkStep(_, _) => MarkKeepsTruth(s, a);
    case Begin(_, _) => BeginKeepsTruth(s, a);
    case WriteUpload(_, _) => UploadKeepsTruth(s, a);
    case WriteFinal(_, _, _) => FinalKeepsTruth(s, a);
    case _ =>
  }

  lemma {:induction false} BeginKeepsTruth(s: System, a: Action)
    requires Invariant(s) && Truthful(s) && Enabled(s, a) && a.Begin?
    ensures Truthful(Next(s, a))
  {
    assert Begun(a.startedAt).steps == Steps(Unstarted(s.loops[0].hasBucket).statuses);
  }

  lemma {:induction false} UploadKeepsTruth(s: System, a: Action)
    requires Invariant(s) && Truthful(s) && Enabled(s, a) && a.WriteUpload?
    ensures Truthful(Next(s, a))
  {
    assert Executes(s, s.loops[0].id) && IsRunning(s, s.loops[0].id);
  }

  lemma {:induction false} FinalKeepsTruth(s: System, a: Action)
    requires Invariant(s) && Truthful(s) && Enabled(s, a) && a.WriteFinal?
    ensures Truthful(Next(s, a))
  {
    EndTellsTheTruth(s.loops[0].copy, s.loops[0].progress, a.endedAt, a.error);
  }

  lemma {:induction false} TruthfulAlways(s: System, actions: seq<Action>)
    requires Fresh(s) && IsRun(s, actions)
    ensures Truthful(RunFrom(s, actions))
  {
    if actions != [] {
      TruthfulAlways(s, Init(actions));
      FreshInvariant(s);
      InvariantAlways(s, Init(actions));
      ActionKeepsTruth(RunFrom(s, Init(actions)), Last(actions));
    }
  }

  /** In every reachable state, whatever the API calls do meanwhile, an ended run's status agrees with its steps: what
      is only collected, backed up or uploaded never decides it. */
  lemma {:induction false} StatusMatchesSteps(s: System, actions: seq<Action>, id: RunId)
    requires Fresh(s) && IsRun(s, actions) && id in RunFrom(s, actions).store.states
    ensures TellsTheTruth(RunFrom(s, actions).store.states[id])
  {
    TruthfulAlways(s, actions);
  }

  /** A run that was started without a bucket never starts its upload, in any reachable state. */
  lemma {:induction false} NoBucketNoUpload(s: System, actions: seq<Action>)
    requires Fresh(s) && IsRun(s, actions) && RunFrom(s, actions).loops != []
    requires RunFrom(s, actions).loops[0].Executing? || RunFrom(s, actions).loops[0].Finishing?
    requires !RunFrom(s, actions).loops[0].progress.hasBucket
    ensures var t := RunFrom(s, actions);
            var id := t.loops[0].id;
            id in t.store.states && StepIs(t.store.states[id], UPLOAD, StepPending) && t.store.states[id].gcsPath == ""
  {
    TruthfulAlways(s, actions);
  }

  /** What a waiting run shows is every step of a run under way but the backup. */
  lemma {:induction false} FreshStepsLackBackup()
    ensures FreshState().steps == Pending(Without(STEP_NAMES, TakeBackup))
  {
    WithoutAt(STEP_NAMES, 4);
  }

  /** The state an undisturbed run ends in agrees with its steps in the same way. */
  lemma {:induction false} OutcomeMatchesSteps(o: Outcome, hasBucket: bool)
    ensures var final := FinalState(o, hasBucket);
            && TellsTheTruth(final) && HasEnded(final)
            && (final.status == Success <==> o.reset && o.deploy && o.loadgen)
            && final.errMsg == (if final.status == Failed then o.error else "")
            && final.startedAt == Some(o.startedAt) && final.endedAt == Some(o.endedAt)
    ensures var final := FinalState(o, hasBucket);
            && (StepIs(final, 0, StepError) <==> !o.reset)
            && (StepIs(final, 1, StepError) <==> o.reset && !o.deploy)
            && (StepIs(final, 2, StepError) <==> o.reset && o.deploy && !o.loadgen)
            && (StepIs(final, 3, StepError) <==> o.reset && o.deploy && o.loadgen && !o.collect)
            && (StepIs(final, 4, StepError) <==> o.reset && o.deploy && !o.backup)
            && (StepIs(final, UPLOAD, StepError) <==> o.reset && o.deploy && hasBucket && !o.upload)
            && (StepIs(final, UPLOAD, StepDone) <==> o.reset && o.deploy && hasBucket && o.upload)
            && final.gcsPath == (if StepIs(final, UPLOAD, StepDone) then o.gcsPath else "")
  {
    var final := FinalState(o, hasBucket);
    if !o.reset {
      assert FailedAt(final, 0);
    } else if !o.deploy {
      assert FailedAt(final, 1);
    } else if !o.loadgen {
      assert FailedAt(final, 2);
    }
  }
}
