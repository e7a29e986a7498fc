/** What the instance-scaling controller guarantees over whole runs. */
module ScaleRuns {
  import opened Basics
  import opened ScalePolicy
  import opened WeightedMonotonicity
  import opened StabilizationWindow
  import opened ScaleController
  import ClusterApi
  import LeastSquares

  /** The state after a sequence of polls; the controller is the only writer of the instance count. */
  ghost function RunFrom(cfg: Config, s: State, polls: seq<Poll>): State {
    if polls == [] then s else AfterPoll(cfg, RunFrom(cfg, s, Init(polls)), Last(polls))
  }

  ghost function Before(cfg: Config, s: State, polls: seq<Poll>, i: nat): State
    requires i <= |polls|
  {
    RunFrom(cfg, s, polls[..i])
  }

  lemma {:induction false} BeforeNext(cfg: Config, s: State, polls: seq<Poll>, i: nat)
    requires i < |polls|
    ensures Before(cfg, s, polls, i + 1) == AfterPoll(cfg, Before(cfg, s, polls, i), polls[i])
  {
    assert Init(polls[..i + 1]) == polls[..i];
  }

  /** The clock does not go back, within a poll or from one poll to the next. */
  ghost predicate Clocked(polls: seq<Poll>) {
    && (forall i :: 0 <= i < |polls| ==> polls[i].guardAt <= polls[i].recordAt <= polls[i].actAt)
    && (forall i, j :: 0 <= i < j < |polls| ==> polls[i].actAt <= polls[j].guardAt)
  }

  /** The writes of the first n polls land. */
  ghost predicate WritesLand(polls: seq<Poll>, n: nat) {
    forall i :: 0 <= i < n && i < |polls| ==> WriteLands(polls[i])
  }

  // ---- No flapping ---------------------------------------------------------------------

  function Floor(cfg: Config, r: Record): int {
    Clamp(r.target, cfg.minInstances, cfg.maxInstances)
  }

  /** The instance count is at least what every retained record asks for. */
  ghost predicate Supported(cfg: Config, s: State) {
    forall r :: r in s.window ==> s.instances >= Floor(cfg, r)
  }

  /** In every mode but the purely predictive one a decision covers every record in the window it leaves. */
  lemma {:induction false} TargetCoversRecords(cfg: Config, s: State, p: Poll, r: Record)
    requires cfg.Valid() && cfg.stabilizationWindow > 0 && cfg.scalingMode != Predictive
    requires Decides(cfg, s, p) && r in AfterPoll(cfg, s, p).window
    ensures DecisionAt(cfg, s, p).target >= Floor(cfg, r)
  {
    MaxTargetIsMax(AfterPoll(cfg, s, p).window, RawTarget(cfg, s, p));
  }

  lemma {:induction false} SupportedStep(cfg: Config, s: State, p: Poll)
    requires cfg.Valid() && cfg.stabilizationWindow > 0 && cfg.scalingMode != Predictive
    requires WriteLands(p) && Supported(cfg, s)
    ensures Supported(cfg, AfterPoll(cfg, s, p))
  {
    if Decides(cfg, s, p) {
      var s' := AfterPoll(cfg, s, p);
      assert s'.instances == DecisionAt(cfg, s, p).target;
      forall r | r in s'.window
        ensures s'.instances >= Floor(cfg, r)
      {
        TargetCoversRecords(cfg, s, p, r);
      }
    }
  }

  lemma {:induction false} SupportedAlways(cfg: Config, s: State, polls: seq<Poll>, i: nat)
    requires cfg.Valid() && cfg.stabilizationWindow > 0 && cfg.scalingMode != Predictive
    requires s.window == [] && WritesLand(polls, i) && i <= |polls|
    ensures Supported(cfg, Before(cfg, s, polls, i))
  {
    if i > 0 {
      SupportedAlways(cfg, s, polls, i - 1);
      BeforeNext(cfg, s, polls, i - 1);
      SupportedStep(cfg, Before(cfg, s, polls, i - 1), polls[i - 1]);
    }
  }

  lemma {:induction false} ClockRises(polls: seq<Poll>, i: nat, j: nat)
    requires Clocked(polls) && i <= j < |polls|
    ensures polls[i].recordAt <= polls[j].recordAt
  {
    if i < j {
      assert polls[i].recordAt <= polls[i].actAt <= polls[j].guardAt <= polls[j].recordAt;
    }
  }

  /** Polls i up to j, exclusively, record no later than this. */
  ghost predicate RecordBy(polls: seq<Poll>, i: nat, j: nat, until: int) {
    forall m :: i <= m < j && m < |polls| ==> polls[m].recordAt <= until
  }

  /** A record stays in the window for as long as no poll is later than its time plus the window. */
  lemma {:induction false} RecordPersists(cfg: Config, s: State, polls: seq<Poll>, r: Record, i: nat, j: nat)
    requires cfg.stabilizationWindow > 0 && i <= j <= |polls| && r in Before(cfg, s, polls, i).window
    requires RecordBy(polls, i, j, r.at + cfg.stabilizationWindow)
    ensures r in Before(cfg, s, polls, j).window
  {
    if i < j {
      RecordPersists(cfg, s, polls, r, i, j - 1);
      BeforeNext(cfg, s, polls, j - 1);
      var (before, p) := (Before(cfg, s, polls, j - 1), polls[j - 1]);
      if Decides(cfg, before, p) {
        PushMembers(before.window, p.recordAt, RawTarget(cfg, before, p), cfg.stabilizationWindow);
      }
    }
  }

  /** A count that covers a retained record covers it for as long as the record stays, whichever writes land. */
  lemma {:induction false} RecordHolds(cfg: Config, s: State, polls: seq<Poll>, r: Record, i: nat, j: nat)
    requires cfg.Valid() && cfg.stabilizationWindow > 0 && cfg.scalingMode != Predictive
    requires i <= j <= |polls| && r in Before(cfg, s, polls, i).window
    requires RecordBy(polls, i, j, r.at + cfg.stabilizationWindow)
    requires Before(cfg, s, polls, i).instances >= Floor(cfg, r)
    ensures Before(cfg, s, polls, j).instances >= Floor(cfg, r)
  {
    if i < j {
      RecordHolds(cfg, s, polls, r, i, j - 1);
      RecordPersists(cfg, s, polls, r, i, j);
      BeforeNext(cfg, s, polls, j - 1);
      PollHolds(cfg, Before(cfg, s, polls, j - 1), polls[j - 1], r);
    }
  }

  lemma {:induction false} PollHolds(cfg: Config, s: State, p: Poll, r: Record)
    requires cfg.Valid() && cfg.stabilizationWindow > 0 && cfg.scalingMode != Predictive
    requires r in AfterPoll(cfg, s, p).window && s.instances >= Floor(cfg, r)
    ensures AfterPoll(cfg, s, p).instances >= Floor(cfg, r)
  {
    if Decides(cfg, s, p) {
      TargetCoversRecords(cfg, s, p, r);
    }
  }

  /** After poll k, and after every later poll whose clock reads at most `until`, the count is at least `least`. */
  ghost predicate HeldUp(cfg: Config, s: State, polls: seq<Poll>, k: nat, until: int, least: int) {
    forall j: nat :: k < j <= |polls| && (j == k + 1 || polls[j - 1].recordAt <= until) ==>
      Before(cfg, s, polls, j).instances >= least
  }

  /** In every mode but the purely predictive one, the reactive target recorded at poll k holds the instance count up
      to the end of its window exactly when that poll's own write lands or the count was high enough already. The
      fate of every other write, and what the load does, are irrelevant. */
  lemma {:induction false} RecordedTargetHolds(cfg: Config, s: State, polls: seq<Poll>, k: nat)
    requires cfg.Valid() && cfg.stabilizationWindow > 0 && cfg.scalingMode != Predictive && Clocked(polls)
    requires k < |polls| && Decides(cfg, Before(cfg, s, polls, k), polls[k])
    ensures var before := Before(cfg, s, polls, k);
            var least := Clamp(RawTarget(cfg, before, polls[k]), cfg.minInstances, cfg.maxInstances);
            HeldUp(cfg, s, polls, k, polls[k].recordAt + cfg.stabilizationWindow, least)
            <==> WriteLands(polls[k]) || before.instances >= least
  {
    var r := RecordAfter(cfg, s, polls, k);
    HeldUpExactly(cfg, s, polls, k, r);
  }

  lemma {:induction false} HeldUpExactly(cfg: Config, s: State, polls: seq<Poll>, k: nat, r: Record)
    requires cfg.Valid() && cfg.stabilizationWindow > 0 && cfg.scalingMode != Predictive && Clocked(polls)
    requires k < |polls| && Decides(cfg, Before(cfg, s, polls, k), polls[k])
    requires r in Before(cfg, s, polls, k + 1).window
    ensures HeldUp(cfg, s, polls, k, r.at + cfg.stabilizationWindow, Floor(cfg, r))
       <==> WriteLands(polls[k]) || Before(cfg, s, polls, k).instances >= Floor(cfg, r)
  {
    var (before, after) := (Before(cfg, s, polls, k), Before(cfg, s, polls, k + 1));
    BeforeNext(cfg, s, polls, k);
    TargetCoversRecords(cfg, before, polls[k], r);
    if after.instances >= Floor(cfg, r) {
      forall j: nat | k < j <= |polls| && (j == k + 1 || polls[j - 1].recordAt <= r.at + cfg.stabilizationWindow)
        ensures Before(cfg, s, polls, j).instances >= Floor(cfg, r)
      {
        forall m | k + 1 <= m < j
          ensures polls[m].recordAt <= r.at + cfg.stabilizationWindow
        {
          ClockRises(polls, m, j - 1);
        }
        RecordHolds(cfg, s, polls, r, k + 1, j);
      }
    }
  }

  lemma {:induction false} RecordAfter(cfg: Config, s: State, polls: seq<Poll>, k: nat) returns (r: Record)
    requires cfg.stabilizationWindow > 0 && k < |polls| && Decides(cfg, Before(cfg, s, polls, k), polls[k])
    ensures r == Record(polls[k].recordAt, RawTarget(cfg, Before(cfg, s, polls, k), polls[k]))
    ensures r in Before(cfg, s, polls, k + 1).window
  {
    var before := Before(cfg, s, polls, k);
    r := Record(polls[k].recordAt, RawTarget(cfg, before, polls[k]));
    BeforeNext(cfg, s, polls, k);
    PushMembers(before.window, polls[k].recordAt, r.target, cfg.stabilizationWindow);
  }

  /** In reactive mode a scale-up can only come from the newest record, because the older ones are supported already. */
  lemma {:induction false} ScaleUpIsNewest(cfg: Config, s: State, p: Poll)
    requires cfg.Valid() && cfg.stabilizationWindow > 0 && cfg.scalingMode == Reactive
    requires Supported(cfg, s) && Decides(cfg, s, p) && DecisionAt(cfg, s, p).action == ScaleUp
    ensures DecisionAt(cfg, s, p).target == Clamp(RawTarget(cfg, s, p), cfg.minInstances, cfg.maxInstances)
  {
    var raw := RawTarget(cfg, s, p);
    var kept := Push(s.window, p.recordAt, raw, cfg.stabilizationWindow);
    PushMembers(s.window, p.recordAt, raw, cfg.stabilizationWindow);
    MaxTargetIsMax(kept, raw);
    assert forall r :: r in kept ==>
             r.target == raw || Clamp(r.target, cfg.minInstances, cfg.maxInstances) <= s.instances;
  }

  /** A scale-up is never undone while a record that asks for it remains, exactly when its own write lands. */
  lemma {:induction false} ScaleUpHolds(cfg: Config, s: State, polls: seq<Poll>, k: nat, r: Record)
    requires cfg.Valid() && cfg.stabilizationWindow > 0 && cfg.scalingMode != Predictive && Clocked(polls)
    requires k < |polls| && Decides(cfg, Before(cfg, s, polls, k), polls[k])
    requires r in Before(cfg, s, polls, k + 1).window
    requires DecisionAt(cfg, Before(cfg, s, polls, k), polls[k]).action == ScaleUp
    requires DecisionAt(cfg, Before(cfg, s, polls, k), polls[k]).target == Floor(cfg, r)
    ensures HeldUp(cfg, s, polls, k, r.at + cfg.stabilizationWindow, Floor(cfg, r)) <==> WriteLands(polls[k])
  {
    HeldUpExactly(cfg, s, polls, k, r);
  }

  /** No flapping: once the writes before poll k have landed, a scale-up to T at poll k holds the count at T or more
      to the end of the window, exactly when its own write lands; whatever the load and the later writes do. */
  lemma {:induction false} NoFlapping(cfg: Config, s: State, polls: seq<Poll>, k: nat)
    requires cfg.Valid() && cfg.stabilizationWindow > 0 && cfg.scalingMode == Reactive
    requires s.window == [] && Clocked(polls) && k < |polls| && WritesLand(polls, k)
    requires Decides(cfg, Before(cfg, s, polls, k), polls[k])
    requires DecisionAt(cfg, Before(cfg, s, polls, k), polls[k]).action == ScaleUp
    ensures HeldUp(cfg, s, polls, k, polls[k].recordAt + cfg.stabilizationWindow,
                   DecisionAt(cfg, Before(cfg, s, polls, k), polls[k]).target)
       <==> WriteLands(polls[k])
  {
    SupportedAlways(cfg, s, polls, k);
    ScaleUpIsNewest(cfg, Before(cfg, s, polls, k), polls[k]);
    var r := RecordAfter(cfg, s, polls, k);
    ScaleUpHolds(cfg, s, polls, k, r);
  }

  /** When in general a decision keeps T: in reactive mode the count is at least T after a landed decision exactly
      when some retained record asks for T, or a guard keeps a count that is at least T. */
  lemma {:induction false} DecisionKeepsExactly(cfg: Config, s: State, p: Poll, least: int)
    requires cfg.Valid() && cfg.stabilizationWindow > 0 && cfg.scalingMode == Reactive
    requires Decides(cfg, s, p) && WriteLands(p)
    ensures AfterPoll(cfg, s, p).instances >= least
       <==> || (exists r :: r in AfterPoll(cfg, s, p).window && Floor(cfg, r) >= least)
            || (GuardHolds(cfg.metrics, p.observed.value) && s.instances >= least)
  {
    var (raw, after) := (RawTarget(cfg, s, p), AfterPoll(cfg, s, p));
    PushMembers(s.window, p.recordAt, raw, cfg.stabilizationWindow);
    MaxTargetIsMax(after.window, raw);
    var newest := if MaxTarget(after.window, raw) == raw then Record(p.recordAt, raw) else MaxRecord(after.window, raw);
    assert newest in after.window && newest.target == MaxTarget(after.window, raw);
    assert after.instances == DecisionAt(cfg, s, p).target;
    forall r | r in after.window
      ensures Floor(cfg, r) <= Floor(cfg, newest)
    {
    }
  }

  // ---- What the reactive target of a run is ------------------------------------------------

  lemma {:induction false} PushSorted(w: seq<Record>, now: int, target: int, window: int)
    requires SortedUpTo(w, now) && window > 0
    ensures SortedUpTo(Push(w, now, target, window), now)
    ensures forall r :: r in Push(w, now, target, window) ==> r.at >= now - window
  {
    var all := w + [Record(now, target)];
    assert Init(all) == w;
    DropIsKeep(all, now - window, now);
    KeepFromSorted(all, now - window, now);
    forall r | r in Push(w, now, target, window)
      ensures r.at >= now - window
    {
      KeepFromMember(all, now - window, r);
    }
  }

  lemma {:induction false} WindowSorted(cfg: Config, s: State, polls: seq<Poll>, i: nat)
    requires s.window == [] && Clocked(polls) && i <= |polls|
    ensures i == 0 ==> Before(cfg, s, polls, i).window == []
    ensures i > 0 ==> SortedUpTo(Before(cfg, s, polls, i).window, polls[i - 1].recordAt)
  {
    if i > 0 {
      WindowSorted(cfg, s, polls, i - 1);
      BeforeNext(cfg, s, polls, i - 1);
      var before := Before(cfg, s, polls, i - 1);
      var p := polls[i - 1];
      if i > 1 {
        ClockRises(polls, i - 2, i - 1);
      }
      if Decides(cfg, before, p) && cfg.stabilizationWindow > 0 {
        PushSorted(before.window, p.recordAt, RawTarget(cfg, before, p), cfg.stabilizationWindow);
      }
    }
  }

  /** Every record in the window is the raw target of some earlier deciding poll. */
  lemma {:induction false} RecordOrigin(cfg: Config, s: State, polls: seq<Poll>, i: nat, r: Record) returns (j: nat)
    requires s.window == [] && i <= |polls| && r in Before(cfg, s, polls, i).window
    ensures j < i && Decides(cfg, Before(cfg, s, polls, j), polls[j])
    ensures r == Record(polls[j].recordAt, RawTarget(cfg, Before(cfg, s, polls, j), polls[j]))
  {
    assert i > 0;
    BeforeNext(cfg, s, polls, i - 1);
    var before := Before(cfg, s, polls, i - 1);
    var p := polls[i - 1];
    if r in before.window {
      j := RecordOrigin(cfg, s, polls, i - 1, r);
    } else {
      j := i - 1;
      PushMembers(before.window, p.recordAt, RawTarget(cfg, before, p), cfg.stabilizationWindow);
    }
  }

  /** Poll i decides, and no earlier than the window before poll k. */
  ghost predicate DecidesRecently(cfg: Config, s: State, polls: seq<Poll>, i: nat, k: nat)
    requires i < |polls| && k < |polls|
  {
    Decides(cfg, Before(cfg, s, polls, i), polls[i]) && polls[i].recordAt >= polls[k].recordAt - cfg.stabilizationWindow
  }

  /** In any run the reactive target a deciding poll acts on is the largest raw target of the deciding polls of the
      last window: none of them asked for more, and one of them asked for exactly that. */
  lemma {:induction false} ReactiveIsRecentMaximum(cfg: Config, s: State, polls: seq<Poll>,
                                                   k: nat) returns (source: nat)
    requires cfg.stabilizationWindow > 0 && s.window == [] && Clocked(polls) && k < |polls|
    requires Decides(cfg, Before(cfg, s, polls, k), polls[k])
    ensures forall i: nat :: i <= k && DecidesRecently(cfg, s, polls, i, k) ==>
              RawTarget(cfg, Before(cfg, s, polls, i), polls[i])
              <= DecisionAt(cfg, Before(cfg, s, polls, k), polls[k]).reactive
    ensures source <= k && DecidesRecently(cfg, s, polls, source, k)
    ensures RawTarget(cfg, Before(cfg, s, polls, source), polls[source])
         == DecisionAt(cfg, Before(cfg, s, polls, k), polls[k]).reactive
  {
    var before := Before(cfg, s, polls, k);
    var raw := RawTarget(cfg, before, polls[k]);
    var w := Push(before.window, polls[k].recordAt, raw, cfg.stabilizationWindow);
    BeforeNext(cfg, s, polls, k);
    assert w == Before(cfg, s, polls, k + 1).window;
    MaxTargetIsMax(w, raw);
    forall i: nat | i <= k && DecidesRecently(cfg, s, polls, i, k)
      ensures RawTarget(cfg, Before(cfg, s, polls, i), polls[i]) <= MaxTarget(w, raw)
    {
      var r := RecordAfter(cfg, s, polls, i);
      forall m | i + 1 <= m < k + 1
        ensures polls[m].recordAt <= r.at + cfg.stabilizationWindow
      {
        ClockRises(polls, m, k);
      }
      RecordPersists(cfg, s, polls, r, i + 1, k + 1);
    }
    PushMembers(before.window, polls[k].recordAt, raw, cfg.stabilizationWindow);
    var r := if MaxTarget(w, raw) == raw then Record(polls[k].recordAt, raw) else MaxRecord(w, raw);
    WindowSorted(cfg, s, polls, k);
    if k > 0 {
      ClockRises(polls, k - 1, k);
    }
    PushSorted(before.window, polls[k].recordAt, raw, cfg.stabilizationWindow);
    source := RecordOrigin(cfg, s, polls, k + 1, r);
  }

  ghost function MaxRecord(w: seq<Record>, raw: int): Record
    requires exists r :: r in w && r.target == MaxTarget(w, raw)
  {
    var r :| r in w && r.target == MaxTarget(w, raw);
    r
  }

  // ---- Convergence under constant load ----------------------------------------------------

  /** Only ratio metrics, each of them reported, no guard and no scale-up-only metric. */
  ghost predicate PlainRatios(metrics: seq<MetricSpec>, load: Values) {
    && metrics != []
    && forall spec :: spec in metrics ==>
         spec.targetValuePerReplica > 0.0 && !spec.scaleDownGuard && !spec.scaleUpOnly && spec.name in load
  }

  lemma {:induction false} DesiresIgnoreCurrent(metrics: seq<MetricSpec>, load: Values, a: int, b: int)
    requires forall spec :: spec in metrics ==>
               spec.targetValuePerReplica > 0.0 && !spec.scaleUpOnly && spec.name in load
    ensures Desires(metrics, load, a) == Desires(metrics, load, b)
    ensures metrics != [] ==> Desires(metrics, load, a) != []
  {
    if metrics != [] {
      assert Last(metrics) in metrics;
      DesiresIgnoreCurrent(Init(metrics), load, a, b);
    }
  }

  /** The replica count a constant load asks for, before clamping. */
  function Demand(cfg: Config, load: Values): int {
    ReactiveTarget(cfg, load, 0)
  }

  lemma {:induction false} RawTargetIsDemand(cfg: Config, s: State, p: Poll, load: Values)
    requires PlainRatios(cfg.metrics, load) && p.observed == Some(load)
    ensures RawTarget(cfg, s, p) == Demand(cfg, load)
  {
    DesiresIgnoreCurrent(cfg.metrics, load, s.instances, 0);
  }

  ghost predicate ConstantFrom(polls: seq<Poll>, start: nat, load: Values) {
    forall i :: start <= i < |polls| && polls[i].observed.Some? ==> polls[i].observed.value == load
  }

  /** Every record is older than the change of load or asks for the new demand. */
  ghost predicate OldOrDemand(w: seq<Record>, changedAt: int, demand: int) {
    forall r :: r in w ==> r.at <= changedAt || r.target == demand
  }

  lemma {:induction false} OnlyOldOrDemand(cfg: Config, s: State, polls: seq<Poll>, start: nat, changedAt: int,
                                           load: Values, i: nat)
    requires PlainRatios(cfg.metrics, load) && ConstantFrom(polls, start, load) && s.window == [] && i <= |polls|
    requires forall j :: 0 <= j < start && j < |polls| ==> polls[j].recordAt <= changedAt
    ensures OldOrDemand(Before(cfg, s, polls, i).window, changedAt, Demand(cfg, load))
  {
    forall r | r in Before(cfg, s, polls, i).window
      ensures r.at <= changedAt || r.target == Demand(cfg, load)
    {
      var j := RecordOrigin(cfg, s, polls, i, r);
      if j >= start {
        RawTargetIsDemand(cfg, Before(cfg, s, polls, j), polls[j], load);
      }
    }
  }

  ghost predicate AllDemand(w: seq<Record>, demand: int) {
    forall r :: r in w ==> r.target == demand
  }

  lemma {:induction false} NoGuardHolds(metrics: seq<MetricSpec>, load: Values)
    requires PlainRatios(metrics, load)
    ensures !GuardHolds(metrics, load)
  {
  }

  /** A poll that finds nothing but the demand in its window decides on the clamped demand. */
  lemma {:induction false} SettlesAt(cfg: Config, s: State, p: Poll, load: Values)
    requires cfg.Valid() && cfg.scalingMode == Reactive && PlainRatios(cfg.metrics, load)
    requires p.observed == Some(load) && Decides(cfg, s, p)
    requires cfg.stabilizationWindow > 0 ==> AllDemand(AfterPoll(cfg, s, p).window, Demand(cfg, load))
    ensures DecisionAt(cfg, s, p).target == Clamp(Demand(cfg, load), cfg.minInstances, cfg.maxInstances)
  {
    RawTargetIsDemand(cfg, s, p, load);
    NoGuardHolds(cfg.metrics, load);
    MaxTargetIsMax(AfterPoll(cfg, s, p).window, Demand(cfg, load));
  }

  /** The count is the clamped demand, and no record asks for anything else. */
  ghost predicate Settled(cfg: Config, s: State, load: Values) {
    && s.instances == Clamp(Demand(cfg, load), cfg.minInstances, cfg.maxInstances)
    && (cfg.stabilizationWindow > 0 ==> AllDemand(s.window, Demand(cfg, load)))
  }

  lemma {:induction false} PollStaysSettled(cfg: Config, s: State, p: Poll, load: Values)
    requires cfg.Valid() && cfg.scalingMode == Reactive && PlainRatios(cfg.metrics, load)
    requires p.observed.Some? ==> p.observed.value == load
    requires Settled(cfg, s, load)
    ensures Settled(cfg, AfterPoll(cfg, s, p), load)
  {
    if Decides(cfg, s, p) {
      RawTargetIsDemand(cfg, s, p, load);
      if cfg.stabilizationWindow > 0 {
        PushMembers(s.window, p.recordAt, Demand(cfg, load), cfg.stabilizationWindow);
      }
      SettlesAt(cfg, s, p, load);
    }
  }

  lemma {:induction false} StaysSettled(cfg: Config, s: State, polls: seq<Poll>, start: nat, load: Values,
                                        i: nat, j: nat)
    requires cfg.Valid() && cfg.scalingMode == Reactive && PlainRatios(cfg.metrics, load)
    requires ConstantFrom(polls, start, load) && start <= i <= j <= |polls|
    requires Settled(cfg, Before(cfg, s, polls, i), load)
    ensures Settled(cfg, Before(cfg, s, polls, j), load)
  {
    if i < j {
      StaysSettled(cfg, s, polls, start, load, i, j - 1);
      BeforeNext(cfg, s, polls, j - 1);
      PollStaysSettled(cfg, Before(cfg, s, polls, j - 1), polls[j - 1], load);
    }
  }

  ghost predicate SettledFrom(cfg: Config, s: State, polls: seq<Poll>, n: nat, count: int) {
    forall j: nat :: n < j <= |polls| ==> Before(cfg, s, polls, j).instances == count
  }

  /** Convergence: once the load is constant, from the first deciding poll later than the change plus the window
      the count equals the clamped demand, for good, exactly when that poll's write lands or the count is there
      already. A window of zero or less converges at once. */
  lemma {:induction false} Converges(cfg: Config, s: State, polls: seq<Poll>, start: nat, changedAt: int,
                                     load: Values, n: nat)
    requires cfg.Valid() && cfg.scalingMode == Reactive && PlainRatios(cfg.metrics, load)
    requires s.window == [] && Clocked(polls) && ConstantFrom(polls, start, load)
    requires start <= n < |polls| && Decides(cfg, Before(cfg, s, polls, n), polls[n])
    requires forall i :: 0 <= i < start ==> polls[i].recordAt <= changedAt
    requires polls[n].recordAt > changedAt + cfg.stabilizationWindow
    ensures var settled := Clamp(Demand(cfg, load), cfg.minInstances, cfg.maxInstances);
            SettledFrom(cfg, s, polls, n, settled)
            <==> WriteLands(polls[n]) || Before(cfg, s, polls, n).instances == settled
  {
    var (before, p) := (Before(cfg, s, polls, n), polls[n]);
    var settled := Clamp(Demand(cfg, load), cfg.minInstances, cfg.maxInstances);
    BeforeNext(cfg, s, polls, n);
    if cfg.stabilizationWindow > 0 {
      WindowIsDemand(cfg, s, polls, start, changedAt, load, n);
    }
    SettlesAt(cfg, before, p, load);
    if Before(cfg, s, polls, n + 1).instances == settled {
      forall j: nat | n < j <= |polls|
        ensures Before(cfg, s, polls, j).instances == settled
      {
        StaysSettled(cfg, s, polls, start, load, n + 1, j);
      }
    }
  }

  /** After that poll the window holds nothing but the demand. */
  lemma {:induction false} WindowIsDemand(cfg: Config, s: State, polls: seq<Poll>, start: nat, changedAt: int,
                                          load: Values, n: nat)
    requires PlainRatios(cfg.metrics, load) && cfg.stabilizationWindow > 0
    requires s.window == [] && Clocked(polls) && ConstantFrom(polls, start, load)
    requires start <= n < |polls| && Decides(cfg, Before(cfg, s, polls, n), polls[n])
    requires forall i :: 0 <= i < start ==> polls[i].recordAt <= changedAt
    requires polls[n].recordAt > changedAt + cfg.stabilizationWindow
    ensures AllDemand(Before(cfg, s, polls, n + 1).window, Demand(cfg, load))
  {
    var (before, p) := (Before(cfg, s, polls, n), polls[n]);
    BeforeNext(cfg, s, polls, n);
    RawTargetIsDemand(cfg, before, p, load);
    OnlyOldOrDemand(cfg, s, polls, start, changedAt, load, n + 1);
    WindowSorted(cfg, s, polls, n);
    if n > 0 {
      ClockRises(polls, n - 1, n);
    }
    PushSorted(before.window, p.recordAt, Demand(cfg, load), cfg.stabilizationWindow);
  }

  ghost predicate AtMost(w: seq<Record>, limit: int) {
    forall r :: r in w ==> r.target <= limit
  }

  lemma {:induction false} LimitPersists(cfg: Config, s: State, polls: seq<Poll>, start: nat, load: Values,
                                         limit: int, i: nat, j: nat)
    requires PlainRatios(cfg.metrics, load) && ConstantFrom(polls, start, load)
    requires start <= i <= j <= |polls| && Demand(cfg, load) <= limit && AtMost(Before(cfg, s, polls, i).window, limit)
    ensures AtMost(Before(cfg, s, polls, j).window, limit)
  {
    if i < j {
      LimitPersists(cfg, s, polls, start, load, limit, i, j - 1);
      BeforeNext(cfg, s, polls, j - 1);
      var before := Before(cfg, s, polls, j - 1);
      var p := polls[j - 1];
      if Decides(cfg, before, p) && cfg.stabilizationWindow > 0 {
        RawTargetIsDemand(cfg, before, p, load);
        PushMembers(before.window, p.recordAt, Demand(cfg, load), cfg.stabilizationWindow);
      }
    }
  }

  /** Under constant load the stabilised targets of successive deciding polls never increase. */
  lemma {:induction false} StabilizedTargetsFall(cfg: Config, s: State, polls: seq<Poll>, start: nat, load: Values,
                                                 i: nat, j: nat)
    requires PlainRatios(cfg.metrics, load) && ConstantFrom(polls, start, load) && start <= i < j < |polls|
    requires Decides(cfg, Before(cfg, s, polls, i), polls[i]) && Decides(cfg, Before(cfg, s, polls, j), polls[j])
    ensures DecisionAt(cfg, Before(cfg, s, polls, j), polls[j]).reactive
         <= DecisionAt(cfg, Before(cfg, s, polls, i), polls[i]).reactive
  {
    var (a, b) := (Before(cfg, s, polls, i), Before(cfg, s, polls, j));
    RawTargetIsDemand(cfg, a, polls[i], load);
    RawTargetIsDemand(cfg, b, polls[j], load);
    if cfg.stabilizationWindow > 0 {
      var demand := Demand(cfg, load);
      var w := Push(a.window, polls[i].recordAt, demand, cfg.stabilizationWindow);
      BeforeNext(cfg, s, polls, i);
      MaxTargetIsMax(w, demand);
      LimitPersists(cfg, s, polls, start, load, MaxTarget(w, demand), i + 1, j);
      PushMembers(b.window, polls[j].recordAt, demand, cfg.stabilizationWindow);
      MaxTargetIsMax(Push(b.window, polls[j].recordAt, demand, cfg.stabilizationWindow), demand);
    }
  }

  // ---- One decision is monotone in the load ---------------------------------------------------

  lemma {:induction false} MaxTargetMonotone(w: seq<Record>, w': seq<Record>, least: int, least': int)
    requires least <= least' && |w| == |w'|
    requires forall i :: 0 <= i < |w| ==> w[i].target <= w'[i].target
    ensures MaxTarget(w, least) <= MaxTarget(w', least')
  {
    if w != [] {
      MaxTargetMonotone(Init(w), Init(w'), least, least');
    }
  }

  lemma {:induction false} DropBeforeAligned(w: seq<Record>, w': seq<Record>, cutoff: int)
    requires |w| == |w'| && forall i :: 0 <= i < |w| ==> w[i].at == w'[i].at && w[i].target <= w'[i].target
    ensures var (d, d') := (DropBefore(w, cutoff), DropBefore(w', cutoff));
            |d| == |d'| && forall i :: 0 <= i < |d| ==> d[i].target <= d'[i].target
  {
    if w != [] && w[0].at < cutoff {
      DropBeforeAligned(w[1..], w'[1..], cutoff);
    }
  }

  lemma {:induction false} StabilizedMonotone(w: seq<Record>, now: int, target: int, target': int, window: int)
    requires target <= target'
    ensures Stabilized(w, now, target, window) <= Stabilized(w, now, target', window)
  {
    if window > 0 {
      DropBeforeAligned(w + [Record(now, target)], w + [Record(now, target')], now - window);
      MaxTargetMonotone(Push(w, now, target, window), Push(w, now, target', window), target, target');
    }
  }

  ghost predicate SamePoints(low: seq<DataPoint>, high: seq<DataPoint>) {
    |low| == |high| && forall i :: 0 <= i < |low| ==> low[i].at == high[i].at
  }

  lemma {:induction false} SamePointsAppended(h: History, low: Values, high: Values, at: int, name: string)
    requires low.Keys == high.Keys
    ensures SamePoints(PointsOf(Appended(h, low, at), name), PointsOf(Appended(h, high, at), name))
  {
    if name in low {
      CappedSame(PointsOf(h, name), LeastSquares.DataPoint(at, low[name]), LeastSquares.DataPoint(at, high[name]));
    }
  }

  lemma {:induction false} CappedSame(points: seq<DataPoint>, x: DataPoint, y: DataPoint)
    requires x.at == y.at
    ensures SamePoints(Capped(points + [x]), Capped(points + [y]))
  {
  }

  /** The same answer, or a non-negative forecast and a larger one. */
  ghost predicate ForecastNotLower(low: Forecast, high: Forecast) {
    low == high || (low.Forecast? && high.Forecast? && 0.0 <= low.value <= high.value)
  }

  lemma {:induction false} DesiredOfMetricRises(metrics: seq<MetricSpec>, name: string, low: real, high: real,
                                                current: int)
    requires 0.0 <= low <= high && current >= 0
    ensures var (a, b) := (DesiredOfMetric(metrics, name, low, current), DesiredOfMetric(metrics, name, high, current));
            && (a.Ok? <==> b.Ok?)
            && (a.Ok? ==> a.value <= b.value && (a.value == -1 ==> current == 0))
  {
    if metrics != [] {
      if metrics[0].name == name {
        DesiredMonotone(metrics[0], low, high, current);
        if metrics[0].targetValuePerReplica > 0.0 {
          QuotientMonotone(0.0, low, metrics[0].targetValuePerReplica);
        }
      } else {
        DesiredOfMetricRises(metrics[1..], name, low, high, current);
      }
    }
  }

  lemma {:induction false} PredictiveRises(cfg: Config, h: History, h': History, now: int, low: Forecast,
                                           high: Forecast, current: int)
    requires ForecastNotLower(low, high) && current >= 0
    requires forall name :: SamePoints(PointsOf(h, name), PointsOf(h', name))
    ensures ForecastsRise(current, PredictiveOrZero(cfg, h, now, low, current),
                          PredictiveOrZero(cfg, h', now, high, current))
  {
    if cfg.prediction.Some? {
      var name := cfg.prediction.value.metricName;
      assert SamePoints(PointsOf(h, name), PointsOf(h', name));
      if low.Forecast? && low != high {
        DesiredOfMetricRises(cfg.metrics, name, low.value, high.value, current);
      }
    }
  }

  /** The same state, times and network; a snapshot that is nowhere smaller and, where it matters, a forecast that is
      not lower. */
  ghost predicate LoadRises(cfg: Config, s: State, low: Poll, high: Poll) {
    && low.observed.Some? && high.observed.Some?
    && high == low.(observed := high.observed, forecast := high.forecast)
    && SameReported(cfg.metrics, low.observed.value, high.observed.value)
    && (cfg.scalingMode != Reactive ==>
          && low.observed.value.Keys == high.observed.value.Keys
          && ForecastNotLower(low.forecast, high.forecast)
          && s.instances >= 0)
  }

  /** A rising load never yields a smaller target, nor a smaller instance count after the poll, in any mode: with the
      maximum always, with the weighted average where its reactive target is monotone. */
  lemma {:induction false} DecisionMonotone(cfg: Config, s: State, low: Poll, high: Poll)
    requires cfg.Valid() && LoadRises(cfg, s, low, high)
    requires cfg.aggregation == AggregationMax || NoRatioBesideScaleUpOnly(cfg.metrics)
    ensures DecisionAt(cfg, s, low).target <= DecisionAt(cfg, s, high).target
    ensures AfterPoll(cfg, s, low).instances <= AfterPoll(cfg, s, high).instances
  {
    var (a, b) := (DecisionAt(cfg, s, low), DecisionAt(cfg, s, high));
    var (values, values') := (low.observed.value, high.observed.value);
    if cfg.aggregation == AggregationMax {
      ReactiveTargetMonotone(cfg, values, values', s.instances);
    } else {
      WeightedTargetMonotone(cfg, values, values', s.instances);
    }
    StabilizedMonotone(s.window, low.recordAt, RawTarget(cfg, s, low), RawTarget(cfg, s, high),
                       cfg.stabilizationWindow);
    if cfg.scalingMode != Reactive {
      forall name
        ensures SamePoints(PointsOf(Appended(s.history, values, low.observedAt), name),
                           PointsOf(Appended(s.history, values', low.observedAt), name))
      {
        SamePointsAppended(s.history, values, values', low.observedAt, name);
      }
      PredictiveRises(cfg, Appended(s.history, values, low.observedAt), Appended(s.history, values', low.observedAt),
                      low.predictAt, low.forecast, high.forecast, s.instances);
    }
    FinalTargetMonotone(cfg, values, values', s.instances, a.reactive, b.reactive, a.predictive, b.predictive);
  }

  // ---- What a decision is, mode by mode ---------------------------------------------------------------

  /** The decision is for this wanted count: brought into range, and held at the current count where it would scale
      down against a guard. */
  ghost predicate DecidesFor(cfg: Config, s: State, p: Poll, wanted: int)
    requires p.observed.Some?
  {
    var inRange := Clamp(wanted, cfg.minInstances, cfg.maxInstances);
    DecisionAt(cfg, s, p).target ==
    if inRange < s.instances && GuardHolds(cfg.metrics, p.observed.value) then s.instances else inRange
  }

  /** Reactive mode decides for the reactive target; predictive mode for the forecast, and for the current count while
      it is not ready; hybrid mode for the larger of the two, and for the reactive one while the forecast is not
      ready. */
  lemma {:induction false} TargetExactly(cfg: Config, s: State, p: Poll)
    requires cfg.Valid() && Decides(cfg, s, p)
    ensures var d := DecisionAt(cfg, s, p);
            && (cfg.scalingMode == Reactive ==> DecidesFor(cfg, s, p, d.reactive))
            && (cfg.scalingMode == Predictive ==>
                  DecidesFor(cfg, s, p, if d.predictive == -1 then s.instances else d.predictive))
            && (cfg.scalingMode == Hybrid && d.predictive == -1 ==> DecidesFor(cfg, s, p, d.reactive))
            && (cfg.scalingMode == Hybrid && d.predictive != -1 ==>
                  && (d.reactive >= d.predictive ==> DecidesFor(cfg, s, p, d.reactive))
                  && (d.predictive >= d.reactive ==> DecidesFor(cfg, s, p, d.predictive)))
    ensures var d := DecisionAt(cfg, s, p);
            && (d.action == ScaleUp <==> d.target > s.instances)
            && (d.action == ScaleDown <==> d.target < s.instances)
            && (cfg.stabilizationWindow <= 0 ==> d.reactive == RawTarget(cfg, s, p))
  {
  }

  /** In hybrid mode, with a forecast and no guard, the target covers both targets and is one of them. */
  lemma {:induction false} HybridCoversBoth(cfg: Config, s: State, p: Poll)
    requires cfg.Valid() && cfg.scalingMode == Hybrid && Decides(cfg, s, p)
    requires DecisionAt(cfg, s, p).predictive != -1 && !GuardHolds(cfg.metrics, p.observed.value)
    ensures var d := DecisionAt(cfg, s, p);
            var reactive := Clamp(d.reactive, cfg.minInstances, cfg.maxInstances);
            var predictive := Clamp(d.predictive, cfg.minInstances, cfg.maxInstances);
            d.target >= reactive && d.target >= predictive && (d.target == reactive || d.target == predictive)
  {
    TargetExactly(cfg, s, p);
  }

  /** Where a forecast for this metric is taken from: the first metric of that name. */
  ghost predicate FirstNamed(metrics: seq<MetricSpec>, i: nat, name: string) {
    i < |metrics| && metrics[i].name == name && forall j :: 0 <= j < i ==> metrics[j].name != name
  }

  lemma {:induction false} FirstNamedDecides(metrics: seq<MetricSpec>, i: nat, name: string, value: real, current: int)
    requires FirstNamed(metrics, i, name)
    ensures DesiredOfMetric(metrics, name, value, current) == Ok(Desired(metrics[i], value, current))
  {
    if i > 0 {
      FirstNamedDecides(metrics[1..], i - 1, name, value, current);
    }
  }

  ghost predicate EnoughHistory(pred: Prediction, points: seq<DataPoint>, now: int) {
    points != [] && (pred.minHistoryDuration <= 0 || now - points[0].at >= pred.minHistoryDuration)
  }

  /** The predictive target: 0 without a predictor, -1 without enough history, otherwise what the first metric of the
      forecast's name asks for at the forecast value, and 0 when there is neither. */
  lemma {:induction false} PredictiveExactly(cfg: Config, s: State, p: Poll, i: nat)
    requires p.observed.Some?
    ensures var target := DecisionAt(cfg, s, p).predictive;
            if cfg.prediction.None? || !cfg.prediction.value.enabled || p.forecast.NoPredictor? then target == 0
            else
              var pred := cfg.prediction.value;
              var points := PointsOf(Appended(s.history, p.observed.value, p.observedAt), pred.metricName);
              if !EnoughHistory(pred, points, p.predictAt) then target == -1
              else
                && (p.forecast.PredictorFailed? ==> target == 0)
                && (p.forecast.Forecast? && FirstNamed(cfg.metrics, i, pred.metricName) ==>
                      target == Desired(cfg.metrics[i], p.forecast.value, s.instances))
                && (p.forecast.Forecast? && (forall m :: m in cfg.metrics ==> m.name != pred.metricName) ==>
                      target == 0)
  {
    if cfg.prediction.Some? && p.forecast.Forecast? {
      var name := cfg.prediction.value.metricName;
      UnknownMetricExactly(cfg.metrics, name, p.forecast.value, s.instances);
      if FirstNamed(cfg.metrics, i, name) {
        FirstNamedDecides(cfg.metrics, i, name, p.forecast.value, s.instances);
      }
    }
  }

  // ---- Spacing and range of the writes -----------------------------------------------------------

  datatype Patch = Patch(at: int, target: int)

  ghost predicate Patches(cfg: Config, s: State, p: Poll) {
    Decides(cfg, s, p) && DecisionAt(cfg, s, p).action != ScaleNone && WriteAcknowledged(p)
  }

  /** The acknowledged writes of a run, in order. */
  ghost function PatchLog(cfg: Config, s: State, polls: seq<Poll>): seq<Patch> {
    if polls == [] then []
    else
      var (log, before, p) := (PatchLog(cfg, s, Init(polls)), RunFrom(cfg, s, Init(polls)), Last(polls));
      if Patches(cfg, before, p) then log + [Patch(p.actAt, DecisionAt(cfg, before, p).target)] else log
  }

  /** Every write is in range, lastScaleAt is the time of the last one, and neighbours are a cooldown apart. */
  lemma {:induction false} PatchesSpaced(cfg: Config, s: State, polls: seq<Poll>)
    requires cfg.Valid() && s.lastScaleAt.None? && Clocked(polls)
    ensures var log := PatchLog(cfg, s, polls);
            && (forall i :: 0 <= i < |log| ==> cfg.minInstances <= log[i].target <= cfg.maxInstances)
            && (forall i :: 0 < i < |log| ==> log[i].at - log[i - 1].at >= cfg.cooldown)
            && RunFrom(cfg, s, polls).lastScaleAt == (if log == [] then None else Some(Last(log).at))
  {
    if polls != [] {
      var earlier := Init(polls);
      PatchesSpaced(cfg, s, earlier);
      var before := RunFrom(cfg, s, earlier);
      var p := Last(polls);
      if Patches(cfg, before, p) {
        assert p == polls[|polls| - 1];
        var values := p.observed.value;
        var d := DecisionAt(cfg, before, p);
        ActionInRange(cfg, values, before.instances, d.reactive, d.predictive);
      }
    }
  }

  lemma {:induction false} PatchesRise(cfg: Config, s: State, polls: seq<Poll>)
    requires Clocked(polls)
    ensures var log := PatchLog(cfg, s, polls);
            && (forall i, j :: 0 <= i < j < |log| ==> log[i].at <= log[j].at)
            && (log != [] ==> polls != [] && Last(log).at <= Last(polls).actAt)
  {
    if polls != [] {
      var (earlier, p) := (Init(polls), Last(polls));
      PatchesRise(cfg, s, earlier);
      assert p == polls[|polls| - 1] && p.guardAt <= p.recordAt <= p.actAt;
      var before := PatchLog(cfg, s, earlier);
      if before != [] {
        assert Last(earlier) == polls[|polls| - 2] && polls[|polls| - 2].actAt <= p.guardAt;
        assert Last(before).at <= p.actAt;
        assert forall i :: 0 <= i < |before| ==> before[i].at <= Last(before).at;
      }
    }
  }

  /** A poll that reads the metrics and the Cluster gets past the cooldown guard exactly when every acknowledged write
      so far lies at least a cooldown back. */
  lemma {:induction false} DecidesExactly(cfg: Config, s: State, polls: seq<Poll>, p: Poll)
    requires cfg.Valid() && s.lastScaleAt.None? && Clocked(polls)
    ensures Decides(cfg, RunFrom(cfg, s, polls), p)
       <==> && p.observed.Some? && p.currentReadable
            && forall patch :: patch in PatchLog(cfg, s, polls) ==> p.guardAt - patch.at >= cfg.cooldown
  {
    var log := PatchLog(cfg, s, polls);
    PatchesSpaced(cfg, s, polls);
    PatchesRise(cfg, s, polls);
    if log != [] {
      assert Last(log) in log;
      forall patch | patch in log
        ensures patch.at <= Last(log).at
      {
        var i :| 0 <= i < |log| && log[i] == patch;
      }
    }
  }

  lemma {:induction false} GapsAddUp(log: seq<Patch>, gap: int, i: nat, j: nat)
    requires gap > 0 && i <= j < |log|
    requires forall k :: 0 < k < |log| ==> log[k].at - log[k - 1].at >= gap
    ensures log[j].at - log[i].at >= (j - i) * gap
  {
    if i < j {
      GapsAddUp(log, gap, i, j - 1);
      assert (j - i) * gap == (j - 1 - i) * gap + gap;
    }
  }

  /** Any stretch of time of length L holds at most floor(L / cooldown) + 1 acknowledged writes. */
  lemma {:induction false} PatchRateBounded(cfg: Config, s: State, polls: seq<Poll>, from: int, length: nat, i: nat,
                                            j: nat)
    requires cfg.Valid() && cfg.cooldown > 0 && s.lastScaleAt.None? && Clocked(polls)
    requires i <= j < |PatchLog(cfg, s, polls)|
    requires from <= PatchLog(cfg, s, polls)[i].at && PatchLog(cfg, s, polls)[j].at <= from + length
    ensures j - i + 1 <= length / cfg.cooldown + 1
  {
    var log := PatchLog(cfg, s, polls);
    PatchesSpaced(cfg, s, polls);
    GapsAddUp(log, cfg.cooldown, i, j);
    FloorBound(j - i, cfg.cooldown, length);
  }

  lemma {:induction false} FloorBound(k: nat, d: int, length: int)
    requires d > 0 && k * d <= length
    ensures k <= length / d
  {
    var q := length / d;
    assert length == q * d + length % d;
    assert (q + 1 - k) * d == q * d + d - k * d;
    assert q + 1 - k <= 0 ==> (q + 1 - k) * d <= 0;
  }

  // ---- The rolling history -------------------------------------------------------------------------

  /** Every observation of a metric in a run, uncapped. */
  function Observations(polls: seq<Poll>, name: string): seq<DataPoint> {
    if polls == [] then []
    else
      var p := Last(polls);
      if p.observed.Some? && name in p.observed.value
      then Observations(Init(polls), name) + [LeastSquares.DataPoint(p.observedAt, p.observed.value[name])]
      else Observations(Init(polls), name)
  }

  /** The buffer the predictor reads is the most recent observations of the metric, cooldown or not. */
  lemma {:induction false} HistoryIsRecent(cfg: Config, s: State, polls: seq<Poll>, name: string)
    requires s.history == map[]
    ensures var buffer := PointsOf(RunFrom(cfg, s, polls).history, name);
            var all := Observations(polls, name);
            && buffer == Capped(all)
            && |buffer| == MinInt(|all|, 2880)
            && exists earlier :: all == earlier + buffer
  {
    CappedIsLatest(Observations(polls, name));
    BufferIsCapped(cfg, s, polls, name);
  }

  lemma {:induction false} CappedIsLatest(all: seq<DataPoint>)
    ensures |Capped(all)| == MinInt(|all|, 2880) && exists earlier :: all == earlier + Capped(all)
  {
    assert all == all[..|all| - |Capped(all)|] + Capped(all);
  }

  lemma {:induction false} BufferIsCapped(cfg: Config, s: State, polls: seq<Poll>, name: string)
    requires s.history == map[]
    ensures PointsOf(RunFrom(cfg, s, polls).history, name) == Capped(Observations(polls, name))
  {
    if polls != [] {
      BufferIsCapped(cfg, s, Init(polls), name);
      var p := Last(polls);
      BufferStep(cfg, RunFrom(cfg, s, Init(polls)), p, name);
      if p.observed.Some? && name in p.observed.value {
        CappedTwice(Observations(Init(polls), name), LeastSquares.DataPoint(p.observedAt, p.observed.value[name]));
      }
    }
  }

  lemma {:induction false} BufferStep(cfg: Config, s: State, p: Poll, name: string)
    ensures PointsOf(AfterPoll(cfg, s, p).history, name) ==
            if p.observed.Some? && name in p.observed.value
            then Capped(PointsOf(s.history, name) + [LeastSquares.DataPoint(p.observedAt, p.observed.value[name])])
            else PointsOf(s.history, name)
  {
  }

  lemma {:induction false} CappedTwice(points: seq<DataPoint>, x: DataPoint)
    ensures Capped(Capped(points) + [x]) == Capped(points + [x])
  {
  }

  // ---- What is false of the code ------------------------------------------------------------------------

  lemma {:induction false} UnknownMetricExactly(metrics: seq<MetricSpec>, name: string, value: real, current: int)
    ensures DesiredOfMetric(metrics, name, value, current).Err?
       <==> forall spec :: spec in metrics ==> spec.name != name
  {
    if metrics != [] {
      UnknownMetricExactly(metrics[1..], name, value, current);
      assert forall spec :: spec in metrics <==> spec == metrics[0] || spec in metrics[1..];
    }
  }

  /** Asking for a forecast is an error exactly when there is enough history and the predictor fails or the metric is
      not configured. */
  lemma {:induction false} ForecastErrsExactly(cfg: Config, pred: Prediction, h: History, now: int,
                                               forecast: Forecast, current: int)
    ensures PredictiveTarget(cfg, pred, h, now, forecast, current).Err?
       <==> var points := PointsOf(h, pred.metricName);
            && points != [] && (pred.minHistoryDuration > 0 ==> now - points[0].at >= pred.minHistoryDuration)
            && (!forecast.Forecast? || forall spec :: spec in cfg.metrics ==> spec.name != pred.metricName)
  {
    if forecast.Forecast? {
      UnknownMetricExactly(cfg.metrics, pred.metricName, forecast.value, current);
    }
  }

  /** Prediction is off, there is no predictor, or asking it is an error. */
  ghost predicate ForecastMissing(cfg: Config, s: State, p: Poll)
    requires p.observed.Some?
  {
    || cfg.prediction.None? || !cfg.prediction.value.enabled || p.forecast.NoPredictor?
    || PredictiveTarget(cfg, cfg.prediction.value, Appended(s.history, p.observed.value, p.observedAt), p.predictAt,
                        p.forecast, s.instances).Err?
  }

  /** In predictive mode a missing forecast does not hold the current count: it scales down exactly when there is
      anything above the minimum to take away and no guard holds it. */
  lemma {:induction false} FailedPredictorScalesDown(cfg: Config, s: State, p: Poll)
    requires cfg.Valid() && cfg.scalingMode == Predictive && Decides(cfg, s, p) && ForecastMissing(cfg, s, p)
    ensures var d := DecisionAt(cfg, s, p);
            var held := GuardHolds(cfg.metrics, p.observed.value);
            && (d.action == ScaleDown <==> s.instances > cfg.minInstances && !held)
            && (d.action == ScaleUp <==> s.instances < cfg.minInstances)
            && d.target == if s.instances > cfg.minInstances && held then s.instances else cfg.minInstances
  {
  }

  const ONE_RATIO_METRIC: Config :=
    Config(1, 20, [MetricSpec("load", 0.0, 0.0, 1.0, 1.0, false, false)], AggregationMax, 0, Reactive, 100, None)

  function SinglePoll(at: int, load: int, lands: bool): Poll {
    Poll(Some(map["load" := load as real]), at, true, at, at, at, NoPredictor, lands, ClusterApi.Delivered, at)
  }

  ghost predicate Looks(s: State, window: seq<Record>, instances: int, now: int) {
    s.window == window && s.instances == instances && (s.lastScaleAt.Some? ==> s.lastScaleAt.value <= now)
  }

  /** One poll of a controller with one ratio metric at one replica per unit of load. */
  lemma {:induction false} SingleMetricPoll(s: State, window: seq<Record>, instances: int, at: int, load: int,
                                            lands: bool)
    requires Looks(s, window, instances, at)
    ensures var p := SinglePoll(at, load, lands);
            var w := Push(window, at, load, 100);
            var target := Clamp(MaxTarget(w, load), 1, 20);
            && Decides(ONE_RATIO_METRIC, s, p)
            && DecisionAt(ONE_RATIO_METRIC, s, p).target == target
            && DecisionAt(ONE_RATIO_METRIC, s, p).action == ActionFor(target, instances)
            && Looks(AfterPoll(ONE_RATIO_METRIC, s, p), w, if lands then target else instances, at)
  {
    var cfg := ONE_RATIO_METRIC;
    var p := SinglePoll(at, load, lands);
    var values := p.observed.value;
    var spec := cfg.metrics[0];
    assert cfg.metrics == [spec] && Init(cfg.metrics) == [];
    assert Desired(spec, load as real, s.instances) == Ceil(load as real / 1.0) == load;
    assert Desires([], values, s.instances) == [];
    assert Desires(cfg.metrics, values, s.instances) == [Desire(load, 1.0)];
    assert RawTarget(cfg, s, p) == load;
    assert !GuardHolds(cfg.metrics, values);
  }

  /** Poll 1 scales up to a count that is no longer there after poll 2, inside the window. */
  ghost predicate Flaps(cfg: Config, s1: State, p1: Poll, p2: Poll, s3: State) {
    && Decides(cfg, s1, p1)
    && DecisionAt(cfg, s1, p1).action == ScaleUp
    && p2.recordAt <= p1.recordAt + cfg.stabilizationWindow
    && s3.instances < DecisionAt(cfg, s1, p1).target
  }

  /** Why the earlier writes must have landed: if the first scale-up to 10 is lost, the next poll scales up to 10 on
      an old record, and although that write lands the count falls to 2 well inside the window of that poll. */
  lemma {:induction false} LostWriteFlaps(s: State)
    requires s.window == [] && s.instances == 1 && s.lastScaleAt == None
    ensures ONE_RATIO_METRIC.Valid()
    ensures var (p1, p2, p3) := (SinglePoll(0, 10, false), SinglePoll(50, 2, true), SinglePoll(120, 2, true));
            var s1 := AfterPoll(ONE_RATIO_METRIC, s, p1);
            var s2 := AfterPoll(ONE_RATIO_METRIC, s1, p2);
            Flaps(ONE_RATIO_METRIC, s1, p2, p3, AfterPoll(ONE_RATIO_METRIC, s2, p3))
  {
    var s1 := AfterPoll(ONE_RATIO_METRIC, s, SinglePoll(0, 10, false));
    var s2 := AfterPoll(ONE_RATIO_METRIC, s1, SinglePoll(50, 2, true));
    SlidingExample();
    SingleMetricPoll(s, [], 1, 0, 10, false);
    SingleMetricPoll(s1, [Record(0, 10)], 1, 50, 2, true);
    SingleMetricPoll(s2, [Record(0, 10), Record(50, 2)], 10, 120, 2, true);
  }

  lemma {:induction false} SlidingExample()
    ensures Push([], 0, 10, 100) == [Record(0, 10)]
    ensures MaxTarget([Record(0, 10)], 10) == 10
    ensures Push([Record(0, 10)], 50, 2, 100) == [Record(0, 10), Record(50, 2)]
    ensures MaxTarget([Record(0, 10), Record(50, 2)], 2) == 10
    ensures MaxTarget(Push([Record(0, 10), Record(50, 2)], 120, 2, 100), 2) == 2
  {
    assert [] + [Record(0, 10)] == [Record(0, 10)];
    assert [Record(0, 10)] + [Record(50, 2)] == [Record(0, 10), Record(50, 2)];
    assert Init([Record(0, 10), Record(50, 2)]) == [Record(0, 10)] && Init([Record(0, 10)]) == [];
    assert MaxTarget([], 2) == 2 && MaxTarget([], 10) == 10;
    assert MaxTarget([Record(0, 10)], 2) == 10;
    var all := [Record(0, 10), Record(50, 2), Record(120, 2)];
    assert [Record(0, 10), Record(50, 2)] + [Record(120, 2)] == all;
    var kept := [Record(50, 2), Record(120, 2)];
    assert all[1..] == kept && kept[0].at >= 20;
    assert DropBefore(kept, 20) == kept;
    assert Init(kept) == [Record(50, 2)] && Init([Record(50, 2)]) == [];
    assert MaxTarget([Record(50, 2)], 2) == 2;
  }
}
