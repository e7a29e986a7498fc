/** The worker loop when nothing interferes: when it begins a run, when it ends, and what one run amounts to. */
module OrchestratorSessions {
  import opened Basics
  import opened MatrixStore
  import opened MatrixRuns
  import opened Orchestrator
  import opened OrchestratorRuns

  /** The loop acts, not the API; `made` says for which runs the results directory can be made. */
  ghost predicate Alone(s: System, a: Action, made: RunId -> bool)
    requires Enabled(s, a)
  {
    && !a.Start? && !a.Send? && !a.PauseAfterCurrent? && !a.Edit?
    && (a.Prepare? ==> a.made == made(s.loops[a.loop].id))
  }

  /** A run of the system in which only the loop acts. */
  ghost predicate Undisturbed(s: System, actions: seq<Action>, made: RunId -> bool) {
    && IsRun(s, actions)
    && (actions == [] || (Undisturbed(s, Init(actions), made)
                          && Alone(RunFrom(s, Init(actions)), Last(actions), made)))
  }

  lemma {:induction false} Extend(s: System, actions: seq<Action>, a: Action, made: RunId -> bool)
    requires Undisturbed(s, actions, made) && Enabled(RunFrom(s, actions), a) && Alone(RunFrom(s, actions), a, made)
    ensures Undisturbed(s, actions + [a], made)
    ensures RunFrom(s, actions + [a]) == Next(RunFrom(s, actions), a)
    ensures BegunRuns(actions + [a]) == BegunRuns(actions) + Begins(a)
  {
    assert Init(actions + [a]) == actions;
  }

  ghost predicate Reaches(s: System, actions: seq<Action>, made: RunId -> bool, t: System) {
    Undisturbed(s, actions, made) && RunFrom(s, actions) == t
  }

  ghost predicate Leads(s: System, a: Action, made: RunId -> bool, t: System) {
    Enabled(s, a) && Alone(s, a, made) && Next(s, a) == t
  }

  lemma {:induction false} ReachesNext(s: System, actions: seq<Action>, made: RunId -> bool, t: System, a: Action,
                                       next: System)
    requires Reaches(s, actions, made, t) && Leads(t, a, made, next)
    ensures Reaches(s, actions + [a], made, next)
    ensures BegunRuns(actions + [a]) == BegunRuns(actions) + Begins(a)
  {
    Extend(s, actions, a, made);
  }

  /** The same from the other end. */
  lemma {:induction false} Prepend(s: System, a: Action, actions: seq<Action>, made: RunId -> bool)
    requires Enabled(s, a) && Alone(s, a, made) && Undisturbed(Next(s, a), actions, made)
    ensures Reaches(s, [a] + actions, made, RunFrom(Next(s, a), actions))
    ensures BegunRuns([a] + actions) == Begins(a) + BegunRuns(actions)
  {
    if actions == [] {
      Single(s, a, made);
      assert [a] + actions == [a];
    } else {
      Prepend(s, a, Init(actions), made);
      assert Init([a] + actions) == [a] + Init(actions);
    }
  }

  lemma {:induction false} Single(s: System, a: Action, made: RunId -> bool)
    requires Enabled(s, a) && Alone(s, a, made)
    ensures Reaches(s, [a], made, Next(s, a)) && BegunRuns([a]) == Begins(a)
  {
    assert Init([a]) == [];
    assert Undisturbed(s, [], made);
  }

  // ---- When the loop begins another run ----------------------------------------------------------

  /** Left alone, the loop begins no run. */
  ghost predicate BeginsNothing(s: System, made: RunId -> bool) {
    forall actions :: Undisturbed(s, actions, made) ==> BegunRuns(actions) == 0
  }

  predicate StopFirst(channel: seq<Signal>) {
    channel != [] && channel[0] == SignalStop
  }

  /** A start comes before every stop, and the signal behind it is not a stop. */
  predicate Resumes(channel: seq<Signal>) {
    channel != [] &&
    match channel[0]
    case SignalStart => !StopFirst(channel[1..])
    case SignalStop => false
    case SignalPause => Resumes(channel[1..])
  }

  lemma {:induction false} ResumesExactly(channel: seq<Signal>)
    ensures Resumes(channel)
       <==> exists k :: 0 <= k < |channel| && channel[k] == SignalStart
                     && (forall i :: 0 <= i < k ==> channel[i] == SignalPause)
                     && (k + 1 < |channel| ==> channel[k + 1] != SignalStop)
  {
    if channel != [] && channel[0] == SignalPause {
      var rest := channel[1..];
      ResumesExactly(rest);
      if Resumes(rest) {
        var k :| 0 <= k < |rest| && rest[k] == SignalStart && (forall i :: 0 <= i < k ==> rest[i] == SignalPause)
              && (k + 1 < |rest| ==> rest[k + 1] != SignalStop);
        assert channel[k + 1] == SignalStart;
        assert forall i :: 0 < i < k + 1 ==> channel[i] == rest[i - 1];
      }
      if k :| 0 <= k < |channel| && channel[k] == SignalStart
              && (forall i :: 0 <= i < k ==> channel[i] == SignalPause)
              && (k + 1 < |channel| ==> channel[k + 1] != SignalStop) {
        assert rest[k - 1] == SignalStart;
        assert forall i :: 0 <= i < k - 1 ==> rest[i] == channel[i + 1];
        assert k < |rest| ==> rest[k] == channel[k + 1];
      }
    } else if channel != [] && channel[0] == SignalStart {
      assert Resumes(channel) ==> channel[0] == SignalStart;
    }
  }

  /** There is no run to execute, or the one to execute cannot start. */
  ghost predicate NothingToStart(s: State, made: RunId -> bool) {
    var id := FirstQueued(s.order, s.states);
    id == NoRun || !CanStart(s, id, made(id))
  }

  /** What the loop is held up by after a run: the pause it was asked for, or a stop that comes first. */
  ghost predicate HeldUpAfterRun(s: System) {
    if s.pauseAfter then !Resumes(s.channel) else StopFirst(s.channel)
  }

  predicate InRun(pc: Pc) {
    pc.Executing? || pc.Uploading? || pc.Finishing?
  }

  /** From here the loop will not get to begin a run. */
  ghost predicate Fruitless(s: System, made: RunId -> bool) {
    s.loops == [] ||
    match s.loops[0]
    case Exiting => true
    case Top => StopFirst(s.channel) || NothingToStart(s.store, made)
    case Drained => NothingToStart(s.store, made)
    case Chosen(id) => !CanStart(s.store, id, made(id)) && (HeldUpAfterRun(s) || NothingToStart(s.store, made))
    case Ready(_, _) => false
    case Paused => !Resumes(s.channel) || NothingToStart(s.store, made)
    case _ => HeldUpAfterRun(s) || NothingToStart(s.store, made)
  }

  /** What the loop does with the run it is at leaves the queue as it is. */
  lemma {:induction false} RunKeepsQueue(s: System, a: Action)
    requires Invariant(s) && Enabled(s, a) && (a.MarkStep? || a.WriteUpload? || a.WriteFinal?)
    ensures Next(s, a).store.order == s.store.order && Next(s, a).store.file == s.store.file
    ensures FirstQueued(Next(s, a).store.order, Next(s, a).store.states) == FirstQueued(s.store.order, s.store.states)
  {
    var (order, states, id) := (s.store.order, s.store.states, s.loops[0].id);
    RunningNotQueued(s);
    QueueKept(order, states, id, Next(s, a).store.states[id]);
    QueuedHead(order, states);
    QueuedHead(order, Next(s, a).store.states);
  }

  lemma {:induction false} FruitlessStep(s: System, a: Action, made: RunId -> bool)
    requires Invariant(s) && Fruitless(s, made) && Enabled(s, a) && Alone(s, a, made)
    ensures Fruitless(Next(s, a), made) && !a.Begin?
  {
    if a.Exit? {
      assert Next(s, a).loops == [];
    } else if a.MarkStep? || a.WriteUpload? || a.WriteFinal? {
      RunKeepsQueue(s, a);
    }
  }

  lemma {:induction false} FruitlessAlways(s: System, actions: seq<Action>, made: RunId -> bool)
    requires Invariant(s) && Fruitless(s, made) && Undisturbed(s, actions, made)
    ensures Fruitless(RunFrom(s, actions), made) && BegunRuns(actions) == 0
  {
    if actions != [] {
      FruitlessAlways(s, Init(actions), made);
      InvariantAlways(s, Init(actions));
      FruitlessStep(RunFrom(s, Init(actions)), Last(actions), made);
    }
  }

  /** The next thing the loop can do with the run it is at. */
  lemma {:induction false} GoOnWithRun(s: System, made: RunId -> bool) returns (a: Action)
    requires Invariant(s) && s.loops != [] && InRun(s.loops[0])
    ensures Enabled(s, a) && Alone(s, a, made) && !a.Begin?
    ensures var t := Next(s, a);
            && t.loops != [] && (InRun(t.loops[0]) || t.loops[0].Returned?)
            && ActionsLeft(t.loops[0]) < ActionsLeft(s.loops[0])
            && t.channel == s.channel && t.pauseAfter == s.pauseAfter
            && (NothingToStart(t.store, made) <==> NothingToStart(s.store, made))
  {
    var pc := s.loops[0];
    RunningNotQueued(s);
    if pc.Uploading? {
      a := WriteUpload(0, "");
    } else if pc.Finishing? {
      a := WriteFinal(0, 0, "");
    } else if StepAt(pc.progress) == |STEP_NAMES| {
      a := ReadFinal(0);
    } else {
      var p := pc.progress;
      a := MarkStep(0, if p.statuses[StepAt(p)].StepPending? then StepRunning
                       else if p.uploaded then StepDone else StepError);
      MarkUsesOne(p, a.stepStatus, true);
    }
    if !a.ReadFinal? {
      RunKeepsQueue(s, a);
    }
  }

  /** How far the loop is from beginning another run. */
  ghost function Stage(s: System, made: RunId -> bool): nat
    requires s.loops != []
  {
    match s.loops[0]
    case Chosen(id) => if CanStart(s.store, id, made(id)) then 2 else 7
    case Ready(_, _) => 1
    case Drained => 3
    case Top => 4
    case Paused => 5
    case Returned => 6
    case Exiting => 0
    case _ => 7
  }

  /** Unless it is held up or has nothing to start, the loop can take an action that brings the next run nearer. */
  lemma {:induction false} NearerToRun(s: System, made: RunId -> bool) returns (a: Action)
    requires Invariant(s) && s.loops != [] && !Fruitless(s, made)
    ensures Enabled(s, a) && Alone(s, a, made)
    ensures !a.Begin? ==>
              var t := Next(s, a);
              && t.loops != [] && !Fruitless(t, made)
              && (Stage(t, made) < Stage(s, made)
                  || (Stage(t, made) == Stage(s, made) && |t.channel| < |s.channel|)
                  || (Stage(t, made) == Stage(s, made) && |t.channel| == |s.channel|
                      && ActionsLeft(t.loops[0]) < ActionsLeft(s.loops[0])))
  {
    match s.loops[0]
    case Top => a := Drain(0);
    case Drained => a := Choose(0);
    case Chosen(id) => a := Prepare(0, made(id));
    case Ready(_, _) => a := Begin(0, 0);
    case Returned => a := CheckPause(0);
    case Paused => a := Wake(0);
    case _ => a := GoOnWithRun(s, made);
  }

  lemma {:induction false} BeginsEventually(s: System, made: RunId -> bool) returns (actions: seq<Action>)
    requires Invariant(s) && s.loops != [] && !Fruitless(s, made)
    ensures Undisturbed(s, actions, made) && BegunRuns(actions) > 0
    decreases Stage(s, made), |s.channel|, ActionsLeft(s.loops[0])
  {
    var a := NearerToRun(s, made);
    if a.Begin? {
      Single(s, a, made);
      actions := [a];
    } else {
      ActionKeepsInvariant(s, a);
      actions := BeginsEventually(Next(s, a), made);
      Prepend(s, a, actions, made);
      actions := [a] + actions;
    }
  }

  /** In every state the loop left alone can begin a run exactly when it is not held up where it is. */
  lemma {:induction false} BeginsNothingExactly(s: System, made: RunId -> bool)
    requires Invariant(s)
    ensures BeginsNothing(s, made) <==> Fruitless(s, made)
  {
    if Fruitless(s, made) {
      forall actions | Undisturbed(s, actions, made)
        ensures BegunRuns(actions) == 0
      {
        FruitlessAlways(s, actions, made);
      }
    } else {
      var actions := BeginsEventually(s, made);
    }
  }

  /** A session started from idle and left alone begins no run exactly when a stop is the first signal in the channel,
      no ordered run is queued, or the first queued one cannot start. */
  lemma {:induction false} SessionBeginsNothingExactly(s: System, made: RunId -> bool)
    requires Invariant(s) && !s.running
    ensures BeginsNothing(Next(s, Start), made) <==> StopFirst(s.channel) || NothingToStart(s.store, made)
  {
    StartKeepsInvariant(s);
    BeginsNothingExactly(Next(s, Start), made);
  }

  /** A paused loop left alone can begin a run exactly when a start precedes every stop in the channel, the signal
      behind that start is not a stop, and the first queued run can start. */
  lemma {:induction false} PausedBeginsExactly(s: System, made: RunId -> bool)
    requires Invariant(s) && s.loops != [] && s.loops[0].Paused?
    ensures !BeginsNothing(s, made) <==> Resumes(s.channel) && !NothingToStart(s.store, made)
  {
    BeginsNothingExactly(s, made);
  }

  /** A pause takes effect after the current run, and not before: the loop left alone can finish the run and then is
      paused; whatever it does, it begins another run only if the signals then resume it. Without a pause only a stop
      that comes first keeps it from the next run. */
  lemma {:induction false} PauseTakesEffect(s: System, made: RunId -> bool) returns (actions: seq<Action>)
    requires Invariant(s) && s.loops != [] && InRun(s.loops[0])
    ensures Undisturbed(s, actions, made) && BegunRuns(actions) == 0
    ensures var t := RunFrom(s, actions);
            && t.loops == [if s.pauseAfter then Paused else Top]
            && t.channel == s.channel && !t.pauseAfter
            && (NothingToStart(t.store, made) <==> NothingToStart(s.store, made))
    ensures !BeginsNothing(s, made)
       <==> (if s.pauseAfter then Resumes(s.channel) else !StopFirst(s.channel)) && !NothingToStart(s.store, made)
  {
    BeginsNothingExactly(s, made);
    actions := FinishRun(s, made);
  }

  lemma {:induction false} FinishRun(s: System, made: RunId -> bool) returns (actions: seq<Action>)
    requires Invariant(s) && s.loops != [] && (InRun(s.loops[0]) || s.loops[0].Returned?)
    ensures Undisturbed(s, actions, made) && BegunRuns(actions) == 0
    ensures var t := RunFrom(s, actions);
            && t.loops == [if s.pauseAfter then Paused else Top]
            && t.channel == s.channel && !t.pauseAfter
            && (NothingToStart(t.store, made) <==> NothingToStart(s.store, made))
    decreases ActionsLeft(s.loops[0])
  {
    if s.loops[0].Returned? {
      Single(s, CheckPause(0), made);
      actions := [CheckPause(0)];
      assert Next(s, CheckPause(0)).loops == [if s.pauseAfter then Paused else Top];
    } else {
      var a := GoOnWithRun(s, made);
      ActionKeepsInvariant(s, a);
      actions := FinishRun(Next(s, a), made);
      Prepend(s, a, actions, made);
      actions := [a] + actions;
    }
  }

  // ---- When the loop ends -------------------------------------------------------------------------

  /** No signal waits, no pause is asked for, and what the loop has found out about the queue still holds. */
  ghost predicate Quiet(s: System) {
    && Invariant(s) && s.channel == [] && !s.pauseAfter
    && var first := FirstQueued(s.store.order, s.store.states);
       if s.loops == [] then first == NoRun
       else
         match s.loops[0]
         case Paused => false
         case Exiting => first == NoRun
         case Chosen(id) => id == first
         case Ready(id, _) => id == first
         case _ => true
  }

  function Queue(s: System): seq<RunId> {
    QueuedIn(s.store.order, s.store.states)
  }

  lemma {:induction false} QueueKept(order: seq<RunId>, states: map<RunId, RunState>, id: RunId, state: RunState)
    requires !IsQueued(states, id) && state.status != Queued
    ensures QueuedIn(order, states[id := state]) == QueuedIn(order, states)
  {
    if order != [] {
      QueueKept(order[1..], states, id, state);
    }
  }

  /** What an action of the loop does to the queue: beginning a run takes off its head, and nothing else touches it. */
  lemma {:induction false} QueueAfter(s: System, a: Action, made: RunId -> bool)
    requires Quiet(s) && Enabled(s, a) && Alone(s, a, made)
    ensures a.Begin? ==> Queue(s) != [] && s.loops[0].id == Queue(s)[0]
    ensures Queue(Next(s, a)) == if a.Begin? then Queue(s)[1..] else Queue(s)
  {
    var (order, states) := (s.store.order, s.store.states);
    QueuedHead(order, states);
    if a.Begin? {
      QueuedAfterRun(order, states, s.loops[0].id, Begun(a.startedAt));
    } else if a.MarkStep? || a.WriteUpload? || a.WriteFinal? {
      var id := s.loops[0].id;
      RunningNotQueued(s);
      QueueKept(order, states, id, Next(s, a).store.states[id]);
    }
  }

  lemma {:induction false} RunningNotQueued(s: System)
    requires Invariant(s) && s.loops != []
    requires s.loops[0].Executing? || s.loops[0].Uploading? || s.loops[0].Finishing?
    ensures IsRunning(s, s.loops[0].id)
  {
    assert Executes(s, s.loops[0].id);
  }

  lemma {:induction false} QuietStep(s: System, a: Action, made: RunId -> bool)
    requires Quiet(s) && Enabled(s, a) && Alone(s, a, made)
    ensures Quiet(Next(s, a))
  {
    ActionKeepsInvariant(s, a);
  }

  function MarksLeft(status: StepStatus): nat {
    match status
    case StepPending => 2
    case StepRunning => 1
    case _ => 0
  }

  function AllMarksLeft(q: Statuses): nat {
    MarksLeft(q[0]) + MarksLeft(q[1]) + MarksLeft(q[2]) + MarksLeft(q[3]) + MarksLeft(q[4]) + MarksLeft(q[5])
  }

  const ROUND: nat := 21

  /** How many actions the loop can still take before it is at its top again or gone. */
  function ActionsLeft(pc: Pc): nat {
    match pc
    case Executing(_, p) => 6 + AllMarksLeft(p.statuses) + if p.uploaded then 0 else 2
    case Uploading(_, p, _) => 7 + AllMarksLeft(p.statuses)
    case Finishing(_, _, _) => 5
    case Returned => 4
    case Top => 3
    case Drained => 2
    case Chosen(_) => 1
    case Exiting => 1
    case Ready(_, _) => 0
    case Paused => 0
  }

  function Rank(s: System): nat {
    ROUND * |Queue(s)| + if s.loops == [] then 0 else ActionsLeft(s.loops[0])
  }

  lemma {:induction false} MarkUsesOne(p: Progress, status: StepStatus, hasState: bool)
    requires CanMark(p, status, hasState)
    ensures AllMarksLeft(Marked(p, status).statuses) == AllMarksLeft(p.statuses) - 1
  {
  }

  ghost predicate AllCanStart(s: System, made: RunId -> bool) {
    forall id :: id in Queue(s) ==> made(id)
  }

  /** While every queued run can start, each action of the loop brings its end nearer. */
  lemma {:induction false} RankFalls(s: System, a: Action, made: RunId -> bool)
    requires Quiet(s) && AllCanStart(s, made) && Enabled(s, a) && Alone(s, a, made)
    ensures AllCanStart(Next(s, a), made) && Rank(Next(s, a)) < Rank(s)
  {
    QueueAfter(s, a, made);
    QueuedHead(s.store.order, s.store.states);
    if a.MarkStep? {
      MarkUsesOne(s.loops[0].progress, a.stepStatus, s.loops[0].id in s.store.states);
    }
    if a.Prepare? {
      SpecOfOrdered(s.store, s.loops[0].id);
      assert s.loops[0].id in Queue(s);
    }
  }

  lemma {:induction false} RankBounds(s: System, actions: seq<Action>, made: RunId -> bool)
    requires Quiet(s) && AllCanStart(s, made) && Undisturbed(s, actions, made)
    ensures var t := RunFrom(s, actions);
            Quiet(t) && AllCanStart(t, made) && |actions| + Rank(t) <= Rank(s)
  {
    if actions != [] {
      RankBounds(s, Init(actions), made);
      var before := RunFrom(s, Init(actions));
      QuietStep(before, Last(actions), made);
      RankFalls(before, Last(actions), made);
    }
  }

  /** A quiet loop that is there can always go on. */
  lemma {:induction false} CanGoOn(s: System, made: RunId -> bool) returns (a: Action)
    requires Quiet(s) && s.loops != []
    ensures Enabled(s, a) && Alone(s, a, made)
  {
    match s.loops[0]
    case Top => a := Drain(0);
    case Drained => a := Choose(0);
    case Chosen(id) => a := Prepare(0, made(id));
    case Ready(_, _) => a := Begin(0, 0);
    case Returned => a := CheckPause(0);
    case Exiting => a := Exit(0);
    case _ => a := GoOnWithRun(s, made);
  }

  /** This queued run cannot start, and the loop is not about to end. */
  ghost predicate Held(s: System, id: RunId, made: RunId -> bool) {
    && Quiet(s) && s.loops != [] && id in Queue(s) && !made(id)
    && (s.loops[0].Ready? ==> made(s.loops[0].id))
  }

  lemma {:induction false} StaysHeld(s: System, a: Action, id: RunId, made: RunId -> bool)
    requires Held(s, id, made) && Enabled(s, a) && Alone(s, a, made)
    ensures Held(Next(s, a), id, made)
  {
    QuietStep(s, a, made);
    QueueAfter(s, a, made);
    QueuedHead(s.store.order, s.store.states);
    if a.Begin? {
      assert Queue(s) == [Queue(s)[0]] + Queue(s)[1..];
    }
  }

  lemma {:induction false} HeldForEver(s: System, id: RunId, made: RunId -> bool, n: nat) returns (actions: seq<Action>)
    requires Held(s, id, made)
    ensures Undisturbed(s, actions, made) && |actions| == n && Held(RunFrom(s, actions), id, made)
  {
    actions := [];
    if n > 0 {
      actions := HeldForEver(s, id, made, n - 1);
      var a := CanGoOn(RunFrom(s, actions), made);
      StaysHeld(RunFrom(s, actions), a, id, made);
      Extend(s, actions, a, made);
      actions := actions + [a];
    }
  }

  ghost predicate EndsWithin(s: System, made: RunId -> bool, n: nat) {
    forall actions :: Undisturbed(s, actions, made) ==> |actions| <= n
  }

  /** A loop that is left alone ends, after a bounded number of actions, exactly when every queued run can start. */
  lemma {:induction false} LoopEndsExactly(s: System, made: RunId -> bool)
    requires Quiet(s) && s.loops == [Top]
    ensures (exists n: nat :: EndsWithin(s, made, n)) <==> AllCanStart(s, made)
  {
    if AllCanStart(s, made) {
      forall actions | Undisturbed(s, actions, made)
        ensures |actions| <= Rank(s)
      {
        RankBounds(s, actions, made);
      }
      assert EndsWithin(s, made, Rank(s));
    } else {
      var id :| id in Queue(s) && !made(id);
      forall n: nat
        ensures !EndsWithin(s, made, n)
      {
        var actions := HeldForEver(s, id, made, n + 1);
      }
    }
  }

  lemma {:induction false} QuietAlways(s: System, actions: seq<Action>, made: RunId -> bool)
    requires Quiet(s) && Undisturbed(s, actions, made)
    ensures Quiet(RunFrom(s, actions))
  {
    if actions != [] {
      QuietAlways(s, Init(actions), made);
      QuietStep(RunFrom(s, Init(actions)), Last(actions), made);
    }
  }

  /** Where it ends no run is queued; and as long as it has not ended it can go on. */
  lemma {:induction false} EndsWithNoneQueued(s: System, actions: seq<Action>, made: RunId -> bool)
    requires Quiet(s) && s.loops == [Top] && Undisturbed(s, actions, made)
    ensures var t := RunFrom(s, actions);
            && (t.loops == [] ==> Queue(t) == [])
            && (t.loops != [] ==> exists a: Action :: Enabled(t, a) && Alone(t, a, made))
  {
    var t := RunFrom(s, actions);
    QuietAlways(s, actions, made);
    QueuedHead(t.store.order, t.store.states);
    if t.loops != [] {
      var a := CanGoOn(t, made);
    }
  }

  /** So many rounds of trying a run that cannot start. */
  function Spinning(n: nat, made: bool): seq<Action> {
    if n == 0 then [] else Spinning(n - 1, made) + [Drain(0)] + [Choose(0)] + [Prepare(0, made)] + [CheckPause(0)]
  }

  /** A first queued run that cannot start is tried over and over: any number of rounds leads back to the same state. */
  lemma {:induction false} FailedStartSpins(s: System, made: RunId -> bool, n: nat)
    requires s.channel == [] && !s.pauseAfter && s.loops == [Top]
    requires FirstQueued(s.store.order, s.store.states) != NoRun && NothingToStart(s.store, made)
    ensures var id := FirstQueued(s.store.order, s.store.states);
            Reaches(s, Spinning(n, made(id)), made, s)
  {
    if n > 0 {
      var m := made(FirstQueued(s.store.order, s.store.states));
      FailedStartSpins(s, made, n - 1);
      SpinOnce(s, Spinning(n - 1, m), made);
    }
  }

  lemma {:induction false} SpinOnce(s: System, q: seq<Action>, made: RunId -> bool)
    requires Reaches(s, q, made, s) && s.channel == [] && !s.pauseAfter && s.loops == [Top]
    requires FirstQueued(s.store.order, s.store.states) != NoRun && NothingToStart(s.store, made)
    ensures var m := made(FirstQueued(s.store.order, s.store.states));
            Reaches(s, q + [Drain(0)] + [Choose(0)] + [Prepare(0, m)] + [CheckPause(0)], made, s)
  {
    var id := FirstQueued(s.store.order, s.store.states);
    TryOnce(s, made);
    var q1 := q + [Drain(0)];
    var q2 := q1 + [Choose(0)];
    var q3 := q2 + [Prepare(0, made(id))];
    ReachesNext(s, q, made, s, Drain(0), s.(loops := [Drained]));
    ReachesNext(s, q1, made, s.(loops := [Drained]), Choose(0), s.(loops := [Chosen(id)]));
    ReachesNext(s, q2, made, s.(loops := [Chosen(id)]), Prepare(0, made(id)), s.(loops := [Returned]));
    ReachesNext(s, q3, made, s.(loops := [Returned]), CheckPause(0), s);
  }

  lemma {:induction false} TryOnce(s: System, made: RunId -> bool)
    requires s.channel == [] && !s.pauseAfter && s.loops == [Top]
    requires FirstQueued(s.store.order, s.store.states) != NoRun && NothingToStart(s.store, made)
    ensures var id := FirstQueued(s.store.order, s.store.states);
            && Leads(s, Drain(0), made, s.(loops := [Drained]))
            && Leads(s.(loops := [Drained]), Choose(0), made, s.(loops := [Chosen(id)]))
            && Leads(s.(loops := [Chosen(id)]), Prepare(0, made(id)), made, s.(loops := [Returned]))
            && Leads(s.(loops := [Returned]), CheckPause(0), made, s)
  {
  }

  // ---- One run, action by action ----------------------------------------------------------------

  /** The system while the loop executes a run: the run's stored state and the loop's progress. */
  function During(s: System, id: RunId, p: Progress, state: RunState): System {
    s.(store := s.store.(states := s.store.states[id := state]), loops := [Executing(id, p)])
  }

  /** A mark shows in the stored state. */
  lemma {:induction false} MarkLeads(s: System, id: RunId, p: Progress, state: RunState, status: StepStatus,
                                     made: RunId -> bool)
    requires state.steps == Steps(p.statuses) && CanMark(p, status, true)
    ensures var p' := Marked(p, status);
            Leads(During(s, id, p, state), MarkStep(0, status), made,
                  During(s, id, p', state.(steps := Steps(p'.statuses))))
  {
    MarkIth(p.statuses, StepAt(p), status);
    var (t, t') := (During(s, id, p, state), Next(During(s, id, p, state), MarkStep(0, status)));
    var p' := Marked(p, status);
    assert t'.store.states == s.store.states[id := state.(steps := Steps(p'.statuses))];
  }

  function AfterStep(p: Progress, ok: bool): Progress
    requires StepAt(p) < |STEP_NAMES|
  {
    Marked(p, StepResult(ok))
  }

  /** One step: marked running, then done or failed. A successful upload records its path in between. */
  lemma {:induction false} TakeStep(s: System, q: seq<Action>, made: RunId -> bool, id: RunId, p: Progress,
                                    state: RunState, ok: bool) returns (q': seq<Action>)
    requires Reaches(s, q, made, During(s, id, p, state)) && state.steps == Steps(p.statuses)
    requires StepAt(p) < |STEP_NAMES| && p.statuses[StepAt(p)].StepPending? && !p.uploaded
    requires StepAt(p) == UPLOAD ==> !ok
    ensures var p' := AfterStep(p, ok);
            Reaches(s, q', made, During(s, id, p', state.(steps := Steps(p'.statuses))))
  {
    var running := Marked(p, StepRunning);
    var during := state.(steps := Steps(running.statuses));
    var p' := AfterStep(p, ok);
    MarkLeads(s, id, p, state, StepRunning, made);
    ReachesNext(s, q, made, During(s, id, p, state), MarkStep(0, StepRunning), During(s, id, running, during));
    MarkLeads(s, id, running, during, StepResult(ok), made);
    assert Marked(running, StepResult(ok)) == p';
    q' := q + [MarkStep(0, StepRunning)];
    ReachesNext(s, q', made, During(s, id, running, during), MarkStep(0, StepResult(ok)),
                During(s, id, p', during.(steps := Steps(p'.statuses))));
    q' := q' + [MarkStep(0, StepResult(ok))];
  }

  lemma {:induction false} TakeUpload(s: System, q: seq<Action>, made: RunId -> bool, id: RunId, p: Progress,
                                      state: RunState, path: string) returns (q': seq<Action>)
    requires Reaches(s, q, made, During(s, id, p, state)) && state.steps == Steps(p.statuses)
    requires StepAt(p) == UPLOAD && p.statuses[UPLOAD].StepPending? && !p.uploaded
    ensures var p' := AfterStep(p, true).(uploaded := true);
            Reaches(s, q', made, During(s, id, p', state.(steps := Steps(p'.statuses), gcsPath := path)))
  {
    var running := Marked(p, StepRunning);
    var during := state.(steps := Steps(running.statuses));
    MarkLeads(s, id, p, state, StepRunning, made);
    ReachesNext(s, q, made, During(s, id, p, state), MarkStep(0, StepRunning), During(s, id, running, during));
    q' := q + [MarkStep(0, StepRunning)];
    UploadLeads(s, id, running, during, path, made);
    var reading := During(s, id, running, during).(loops := [Uploading(id, running, during)]);
    ReachesNext(s, q', made, During(s, id, running, during), ReadForUpload(0), reading);
    q' := q' + [ReadForUpload(0)];
    var recorded := running.(uploaded := true);
    ReachesNext(s, q', made, reading, WriteUpload(0, path), During(s, id, recorded, during.(gcsPath := path)));
    q' := q' + [WriteUpload(0, path)];
    MarkLeads(s, id, recorded, during.(gcsPath := path), StepDone, made);
    var p' := AfterStep(p, true).(uploaded := true);
    assert Marked(recorded, StepDone) == p';
    ReachesNext(s, q', made, During(s, id, recorded, during.(gcsPath := path)), MarkStep(0, StepDone),
                During(s, id, p', state.(steps := Steps(p'.statuses), gcsPath := path)));
    q' := q' + [MarkStep(0, StepDone)];
  }

  lemma {:induction false} UploadLeads(s: System, id: RunId, p: Progress, state: RunState, path: string,
                                       made: RunId -> bool)
    requires AtUpload(p)
    ensures var reading := During(s, id, p, state).(loops := [Uploading(id, p, state)]);
            && Leads(During(s, id, p, state), ReadForUpload(0), made, reading)
            && Leads(reading, WriteUpload(0, path), made,
                     During(s, id, p.(uploaded := true), state.(gcsPath := path)))
  {
    var reading := During(s, id, p, state).(loops := [Uploading(id, p, state)]);
    assert Next(reading, WriteUpload(0, path)).store.states == s.store.states[id := state.(gcsPath := path)];
  }

  /** The progress when a run's steps are over. */
  function FinalProgress(o: Outcome, hasBucket: bool): Progress {
    Progress(hasBucket, FinalStatuses(o, hasBucket), o.ReachesTeardown() && hasBucket && o.upload)
  }

  lemma {:induction false} TakeTeardown(s: System, q: seq<Action>, made: RunId -> bool, id: RunId, o: Outcome,
                                        p: Progress, state: RunState) returns (q': seq<Action>)
    requires Reaches(s, q, made, During(s, id, p, state)) && state.steps == Steps(p.statuses)
    requires o.ReachesTeardown() && !p.uploaded
    requires p.statuses == [StepDone, StepDone, StepResult(o.loadgen),
                            if o.loadgen then StepResult(o.collect) else StepPending, StepPending, StepPending]
    ensures var path := if p.hasBucket && o.upload then o.gcsPath else state.gcsPath;
            Reaches(s, q', made, During(s, id, FinalProgress(o, p.hasBucket),
                                        state.(steps := Steps(FinalStatuses(o, p.hasBucket)), gcsPath := path)))
  {
    q' := TakeStep(s, q, made, id, p, state, o.backup);
    var p' := AfterStep(p, o.backup);
    var state' := state.(steps := Steps(p'.statuses));
    if p.hasBucket {
      if o.upload {
        q' := TakeUpload(s, q', made, id, p', state', o.gcsPath);
        assert AfterStep(p', true).statuses == FinalStatuses(o, p.hasBucket);
      } else {
        q' := TakeStep(s, q', made, id, p', state', false);
        assert AfterStep(p', false) == FinalProgress(o, p.hasBucket);
      }
    } else {
      assert p' == FinalProgress(o, p.hasBucket);
    }
  }

  lemma {:induction false} TakeSteps(s: System, q: seq<Action>, made: RunId -> bool, id: RunId, o: Outcome,
                                     hasBucket: bool) returns (q': seq<Action>)
    requires Reaches(s, q, made, During(s, id, Unstarted(hasBucket), Begun(o.startedAt)))
    ensures Reaches(s, q', made, During(s, id, FinalProgress(o, hasBucket), AfterSteps(o, hasBucket)))
  {
    var p := Unstarted(hasBucket);
    var state := Begun(o.startedAt);
    assert state.steps == Steps(p.statuses);
    q' := TakeStep(s, q, made, id, p, state, o.reset);
    p := AfterStep(p, o.reset);
    if !o.reset {
      assert p == FinalProgress(o, hasBucket);
      return;
    }
    q' := TakeStep(s, q', made, id, p, state.(steps := Steps(p.statuses)), o.deploy);
    p := AfterStep(p, o.deploy);
    if !o.deploy {
      assert p == FinalProgress(o, hasBucket);
      return;
    }
    q' := TakeFromLoad(s, q', made, id, o, p, state.(steps := Steps(p.statuses)));
  }

  lemma {:induction false} TakeFromLoad(s: System, q: seq<Action>, made: RunId -> bool, id: RunId, o: Outcome,
                                        p: Progress, state: RunState) returns (q': seq<Action>)
    requires Reaches(s, q, made, During(s, id, p, state)) && state.steps == Steps(p.statuses)
    requires o.ReachesTeardown() && !p.uploaded
    requires p.statuses == [StepDone, StepDone, StepPending, StepPending, StepPending, StepPending]
    ensures var path := if p.hasBucket && o.upload then o.gcsPath else state.gcsPath;
            Reaches(s, q', made, During(s, id, FinalProgress(o, p.hasBucket),
                                        state.(steps := Steps(FinalStatuses(o, p.hasBucket)), gcsPath := path)))
  {
    q' := TakeStep(s, q, made, id, p, state, o.loadgen);
    var p' := AfterStep(p, o.loadgen);
    if o.loadgen {
      q' := TakeStep(s, q', made, id, p', state.(steps := Steps(p'.statuses)), o.collect);
      p' := AfterStep(p', o.collect);
    }
    q' := TakeTeardown(s, q', made, id, o, p', state.(steps := Steps(p'.statuses)));
  }

  /** ExecuteRun is a run of atomic actions: whatever the steps' outcomes, the loop left alone can take the run from its
      start to exactly the state that ExecuteRun's contract gives. */
  lemma {:induction false} RunIsAtomicActions(s: System, made: RunId -> bool, o: Outcome) returns (actions: seq<Action>)
    requires s.loops != [] && s.loops == [s.loops[0]] && s.loops[0].Ready?
    ensures var (id, hasBucket) := (s.loops[0].id, s.loops[0].hasBucket);
            Reaches(s, actions, made, s.(store := Apply(s.store, SetState(id, FinalState(o, hasBucket))),
                                         loops := [Returned]))
  {
    var (id, hasBucket) := (s.loops[0].id, s.loops[0].hasBucket);
    BeginLeads(s, made, id, hasBucket, o.startedAt);
    ReachesNext(s, [], made, s, Begin(0, o.startedAt), During(s, id, Unstarted(hasBucket), Begun(o.startedAt)));
    assert [] + [Begin(0, o.startedAt)] == [Begin(0, o.startedAt)];
    actions := TakeSteps(s, [Begin(0, o.startedAt)], made, id, o, hasBucket);
    FinalLeads(s, made, id, hasBucket, o);
    var ended := During(s, id, FinalProgress(o, hasBucket), AfterSteps(o, hasBucket));
    var reading := ended.(loops := [Finishing(id, FinalProgress(o, hasBucket), AfterSteps(o, hasBucket))]);
    var final := s.(store := Apply(s.store, SetState(id, FinalState(o, hasBucket))), loops := [Returned]);
    ReachesNext(s, actions, made, ended, ReadFinal(0), reading);
    actions := actions + [ReadFinal(0)];
    ReachesNext(s, actions, made, reading, WriteFinal(0, o.endedAt, o.error), final);
    actions := actions + [WriteFinal(0, o.endedAt, o.error)];
  }

  lemma {:induction false} BeginLeads(s: System, made: RunId -> bool, id: RunId, hasBucket: bool, startedAt: int)
    requires s.loops == [Ready(id, hasBucket)]
    ensures Leads(s, Begin(0, startedAt), made, During(s, id, Unstarted(hasBucket), Begun(startedAt)))
    ensures Reaches(s, [], made, s)
  {
  }

  lemma {:induction false} FinalLeads(s: System, made: RunId -> bool, id: RunId, hasBucket: bool, o: Outcome)
    ensures var p := FinalProgress(o, hasBucket);
            var ended := During(s, id, p, AfterSteps(o, hasBucket));
            var reading := ended.(loops := [Finishing(id, p, AfterSteps(o, hasBucket))]);
            && Leads(ended, ReadFinal(0), made, reading)
            && Leads(reading, WriteFinal(0, o.endedAt, o.error), made,
                     s.(store := Apply(s.store, SetState(id, FinalState(o, hasBucket))), loops := [Returned]))
  {
    var (p, state) := (FinalProgress(o, hasBucket), AfterSteps(o, hasBucket));
    FinalIsEnded(o, hasBucket);
    ReadLeads(s, made, id, p, state);
    WriteLeads(s, made, id, p, state, o.endedAt, o.error);
  }

  lemma {:induction false} FinalIsEnded(o: Outcome, hasBucket: bool)
    ensures StepAt(FinalProgress(o, hasBucket)) == |STEP_NAMES|
    ensures var failure := if Succeeded(FinalProgress(o, hasBucket)) then None else Some(o.error);
            Ended(AfterSteps(o, hasBucket), o.endedAt, failure) == FinalState(o, hasBucket)
  {
  }

  lemma {:induction false} ReadLeads(s: System, made: RunId -> bool, id: RunId, p: Progress, state: RunState)
    requires StepAt(p) == |STEP_NAMES|
    ensures var ended := During(s, id, p, state);
            Leads(ended, ReadFinal(0), made, ended.(loops := [Finishing(id, p, state)]))
  {
  }

  lemma {:induction false} WriteLeads(s: System, made: RunId -> bool, id: RunId, p: Progress, state: RunState,
                                      endedAt: int, error: string)
    ensures var final := Ended(state, endedAt, if Succeeded(p) then None else Some(error));
            Leads(During(s, id, p, state).(loops := [Finishing(id, p, state)]), WriteFinal(0, endedAt, error), made,
                  s.(store := Apply(s.store, SetState(id, final)), loops := [Returned]))
  {
    var final := Ended(state, endedAt, if Succeeded(p) then None else Some(error));
    var reading := During(s, id, p, state).(loops := [Finishing(id, p, state)]);
    assert Next(reading, WriteFinal(0, endedAt, error)).store.states == s.store.states[id := final];
  }
}
