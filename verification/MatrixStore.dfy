/** The benchmark matrix: run specifications, their order and their runtime states. */
module MatrixStore {
  import opened Basics

  datatype RunStatus = Queued | Running | Success | Failed | Skipped

  /** A run's ID; the empty string, which the source uses for "no run", is NoRun. */
  datatype RunId = NoRun | RunId(name: string)

  /** The step names the source spells as strings. */
  datatype StepName = ResetCluster | DeployController | RunLoadgen | CollectMetrics | TakeBackup | UploadGcs

  datatype StepStatus = StepPending | StepRunning | StepDone | StepError

  datatype StepInfo = StepInfo(name: StepName, status: StepStatus)

  datatype GlobalDefaults = GlobalDefaults(concurrency: int, dbUrl: string, prometheusUrl: string, gcsBucket: string,
                                           workerNode: string, scaleFactor: int)

  datatype RunSpec = RunSpec(id: RunId, config: string, scenario: string, tags: seq<string>, concurrency: int,
                             workerNode: string, scaleFactor: int)

  datatype RunState = RunState(status: RunStatus, startedAt: Option<int>, endedAt: Option<int>, errMsg: string,
                               gcsPath: string, steps: seq<StepInfo>)

  datatype Run = Run(spec: RunSpec, state: RunState)

  datatype MatrixFile = MatrixFile(defaults: GlobalDefaults, runs: seq<RunSpec>)

  datatype State = State(file: MatrixFile, order: seq<RunId>, states: map<RunId, RunState>)

  // ---- What the operations compute --------------------------------------------------------

  function Pending(names: seq<StepName>): seq<StepInfo> {
    seq(|names|, i requires 0 <= i < |names| => StepInfo(names[i], StepPending))
  }

  function DefaultSteps(): seq<StepInfo> {
    Pending([ResetCluster, DeployController, RunLoadgen, CollectMetrics, UploadGcs])
  }

  function FreshState(): RunState {
    RunState(Queued, None, None, "", "", DefaultSteps())
  }

  function Ids(runs: seq<RunSpec>): (ids: seq<RunId>)
    ensures |ids| == |runs|
  {
    seq(|runs|, i requires 0 <= i < |runs| => runs[i].id)
  }

  function StatusOf(s: State, id: RunId): Option<RunStatus> {
    if id in s.states then Some(s.states[id].status) else None
  }

  /** The specs by ID; a later spec of the same ID wins. */
  function SpecById(runs: seq<RunSpec>): map<RunId, RunSpec> {
    if runs == [] then map[] else SpecById(Init(runs))[Last(runs).id := Last(runs)]
  }

  /** The specs in the given order. */
  function Ordered(order: seq<RunId>, specs: map<RunId, RunSpec>): seq<RunSpec> {
    if order == [] then []
    else Ordered(Init(order), specs) + if Last(order) in specs then [specs[Last(order)]] else []
  }

  function RunsOf(s: State): seq<Run> {
    RunsIn(s.order, SpecById(s.file.runs), s.states)
  }

  function RunsIn(order: seq<RunId>, specs: map<RunId, RunSpec>, states: map<RunId, RunState>): seq<Run> {
    if order == [] then []
    else
      var id := Last(order);
      RunsIn(Init(order), specs, states)
      + if id in specs then [Run(specs[id], if id in states then states[id] else FreshState())] else []
  }

  function MatrixFileOf(s: State): MatrixFile {
    MatrixFile(s.file.defaults, Ordered(s.order, SpecById(s.file.runs)))
  }

  function FindSpec(runs: seq<RunSpec>, id: RunId): Option<RunSpec> {
    if runs == [] then None else if runs[0].id == id then Some(runs[0]) else FindSpec(runs[1..], id)
  }

  function FirstQueued(order: seq<RunId>, states: map<RunId, RunState>): RunId {
    if order == [] then NoRun
    else if order[0] in states && states[order[0]].status == Queued then order[0]
    else FirstQueued(order[1..], states)
  }

  /** States for the IDs that have none yet. */
  function WithFresh(states: map<RunId, RunState>, ids: seq<RunId>): map<RunId, RunState> {
    map id | id in states.Keys + (set i | i in ids) :: if id in states then states[id] else FreshState()
  }

  lemma {:induction false} WithFreshNext(states: map<RunId, RunState>, ids: seq<RunId>, id: RunId)
    ensures var before := WithFresh(states, ids);
            WithFresh(states, ids + [id]) == if id in before then before else before[id := FreshState()]
  {
    assert (set i | i in ids + [id]) == (set i | i in ids) + {id};
  }

  function Replaced(s: State, mf: MatrixFile): State {
    State(mf, Ids(mf.runs), WithFresh(s.states, Ids(mf.runs)))
  }

  function RequeuedState(state: RunState): RunState {
    if state.status == Failed || state.status == Success then FreshState() else state
  }

  function Requeued(states: map<RunId, RunState>): map<RunId, RunState> {
    map id | id in states :: RequeuedState(states[id])
  }

  /** The states while those of `ids` are still to be requeued. */
  ghost function RequeuedBut(states: map<RunId, RunState>, ids: set<RunId>): map<RunId, RunState> {
    map id | id in states :: if id in ids then states[id] else RequeuedState(states[id])
  }

  function Without<T(==)>(order: seq<T>, id: T): seq<T> {
    if order == [] then []
    else if Last(order) == id then Without(Init(order), id)
    else Without(Init(order), id) + [Last(order)]
  }

  function SpecsWithout(runs: seq<RunSpec>, id: RunId): seq<RunSpec> {
    if runs == [] then []
    else if Last(runs).id == id then SpecsWithout(Init(runs), id)
    else SpecsWithout(Init(runs), id) + [Last(runs)]
  }

  function InsertAfter<T(==)>(order: seq<T>, anchor: T, id: T): seq<T> {
    if order == [] then [id]
    else if order[0] == anchor then [order[0], id] + order[1..]
    else [order[0]] + InsertAfter(order[1..], anchor, id)
  }

  /** The order after moving `id` behind `after`, or to the front when `after` is empty. */
  function Moved(order: seq<RunId>, id: RunId, after: RunId): seq<RunId> {
    if after == NoRun then [id] + Without(order, id) else InsertAfter(Without(order, id), after, id)
  }

  predicate CanMove(order: seq<RunId>, id: RunId, after: RunId) {
    id in order && (after == NoRun || after in order)
  }

  /** The first spec of that ID replaced. */
  function WithSpec(runs: seq<RunSpec>, id: RunId, updated: RunSpec): seq<RunSpec> {
    if runs == [] then []
    else if runs[0].id == id then [updated] + runs[1..]
    else [runs[0]] + WithSpec(runs[1..], id, updated)
  }

  function WithStep(steps: seq<StepInfo>, name: StepName, status: StepStatus): seq<StepInfo> {
    if steps == [] then []
    else if steps[0].name == name then [steps[0].(status := status)] + steps[1..]
    else [steps[0]] + WithStep(steps[1..], name, status)
  }

  lemma {:induction false} WithStepAt(steps: seq<StepInfo>, name: StepName, status: StepStatus, i: nat)
    requires i <= |steps| && forall j :: 0 <= j < i ==> steps[j].name != name
    ensures i == |steps| ==> WithStep(steps, name, status) == steps
    ensures i < |steps| && steps[i].name == name ==>
              WithStep(steps, name, status) == steps[i := steps[i].(status := status)]
  {
    if i > 0 {
      WithStepAt(steps[1..], name, status, i - 1);
    }
  }

  lemma {:induction false} WithSpecAt(runs: seq<RunSpec>, id: RunId, updated: RunSpec, i: nat)
    requires i <= |runs| && forall j :: 0 <= j < i ==> runs[j].id != id
    ensures i == |runs| ==> WithSpec(runs, id, updated) == runs && FindSpec(runs, id) == None
    ensures i < |runs| && runs[i].id == id ==>
              WithSpec(runs, id, updated) == runs[i := updated] && FindSpec(runs, id) == Some(runs[i])
  {
    if i > 0 {
      WithSpecAt(runs[1..], id, updated, i - 1);
    }
  }

  lemma {:induction false} InsertAfterAt<T>(order: seq<T>, anchor: T, id: T, i: nat)
    requires i <= |order| && forall j :: 0 <= j < i ==> order[j] != anchor
    ensures i == |order| ==> InsertAfter(order, anchor, id) == order + [id]
    ensures i < |order| && order[i] == anchor ==>
              InsertAfter(order, anchor, id) == order[..i + 1] + [id] + order[i + 1..]
  {
    if i > 0 {
      InsertAfterAt(order[1..], anchor, id, i - 1);
      if i == |order| {
        assert [order[0]] + (order[1..] + [id]) == order + [id];
      } else if order[i] == anchor {
        assert order[1..][i - 1] == anchor;
        assert [order[0]] + (order[1..][..i] + [id] + order[1..][i..]) == order[..i + 1] + [id] + order[i + 1..];
      }
    } else if order != [] {
      assert order[..1] + [id] == [order[0], id];
    }
  }

  datatype Op =
    | ReplaceMatrix(mf: MatrixFile)
    | UpdateSpec(id: RunId, updated: RunSpec)
    | DeleteRun(id: RunId)
    | MoveAfter(id: RunId, after: RunId)
    | SetState(id: RunId, state: RunState)
    | SetStepStatus(id: RunId, step: StepName, stepStatus: StepStatus)
    | ResetQueued
    | UpdateDefaults(defaults: GlobalDefaults)

  /** The store after an operation; a refused operation leaves it as it was. */
  function Apply(s: State, op: Op): State {
    match op
    case ReplaceMatrix(mf) => Replaced(s, mf)
    case UpdateSpec(id, updated) =>
      if StatusOf(s, id) == Some(Running) then s
      else s.(file := s.file.(runs := WithSpec(s.file.runs, id, updated)))
    case DeleteRun(id) =>
      if StatusOf(s, id) == Some(Running) then s
      else State(s.file.(runs := SpecsWithout(s.file.runs, id)), Without(s.order, id), s.states - {id})
    case MoveAfter(id, after) => if CanMove(s.order, id, after) then s.(order := Moved(s.order, id, after)) else s
    case SetState(id, state) => s.(states := s.states[id := state])
    case SetStepStatus(id, step, stepStatus) =>
      if id in s.states
      then s.(states := s.states[id := s.states[id].(steps := WithStep(s.states[id].steps, step, stepStatus))])
      else s
    case ResetQueued => s.(states := Requeued(s.states))
    case UpdateDefaults(defaults) => s.(file := s.file.(defaults := defaults))
  }

  // ---- The store object ------------------------------------------------------------------------

  class Store {
    var file: MatrixFile
    var order: seq<RunId>
    var states: map<RunId, RunState>

    ghost function View(): State
      reads this
    {
      State(file, order, states)
    }

    constructor (mf: MatrixFile)
      ensures View() == Replaced(State(mf, [], map[]), mf)
    {
      file := mf;
      order := [];
      states := map[];
      new;
      ReplaceMatrix(mf);
    }

    method Runs() returns (runs: seq<Run>)
      ensures runs == RunsOf(View())
    {
      runs := [];
      var specById := SpecMap();
      for i := 0 to |order|
        invariant runs == RunsIn(order[..i], specById, states)
      {
        assert Init(order[..i + 1]) == order[..i];
        var id := order[i];
        if id !in specById {
          continue;
        }
        var state := if id in states then states[id] else FreshState();
        runs := runs + [Run(specById[id], state)];
      }
      assert order[..|order|] == order;
    }

    method SpecMap() returns (specById: map<RunId, RunSpec>)
      ensures specById == SpecById(file.runs)
    {
      specById := map[];
      for i := 0 to |file.runs|
        invariant specById == SpecById(file.runs[..i])
      {
        assert Init(file.runs[..i + 1]) == file.runs[..i];
        specById := specById[file.runs[i].id := file.runs[i]];
      }
      assert file.runs[..|file.runs|] == file.runs;
    }

    method ToMatrixFile() returns (mf: MatrixFile)
      ensures mf == MatrixFileOf(View())
    {
      var specById := SpecMap();
      var ordered: seq<RunSpec> := [];
      for i := 0 to |order|
        invariant ordered == Ordered(order[..i], specById)
      {
        assert Init(order[..i + 1]) == order[..i];
        if order[i] in specById {
          ordered := ordered + [specById[order[i]]];
        }
      }
      assert order[..|order|] == order;
      mf := MatrixFile(file.defaults, ordered);
    }

    method GetSpec(id: RunId) returns (spec: Option<RunSpec>)
      ensures spec == FindSpec(file.runs, id)
    {
      for i := 0 to |file.runs|
        invariant FindSpec(file.runs, id) == FindSpec(file.runs[i..], id)
      {
        if file.runs[i].id == id {
          return Some(file.runs[i]);
        }
        assert file.runs[i..][1..] == file.runs[i + 1..];
      }
      return None;
    }

    method GetState(id: RunId) returns (state: Option<RunState>)
      ensures state == if id in states then Some(states[id]) else None
    {
      state := if id in states then Some(states[id]) else None;
    }

    method SetState(id: RunId, state: RunState)
      modifies this`states
      ensures View() == Apply(old(View()), Op.SetState(id, state))
    {
      states := states[id := state];
    }

    method SetStepStatus(id: RunId, stepName: StepName, status: StepStatus)
      modifies this`states
      ensures View() == Apply(old(View()), Op.SetStepStatus(id, stepName, status))
    {
      if id !in states {
        return;
      }
      var steps := states[id].steps;
      for i := 0 to |steps|
        invariant states == old(states)
        invariant forall j :: 0 <= j < i ==> steps[j].name != stepName
      {
        if steps[i].name == stepName {
          WithStepAt(steps, stepName, status, i);
          states := states[id := states[id].(steps := steps[i := steps[i].(status := status)])];
          return;
        }
      }
      WithStepAt(steps, stepName, status, |steps|);
      assert states[id := states[id].(steps := steps)] == states;
    }

    method NextQueued() returns (id: RunId)
      ensures id == FirstQueued(order, states)
    {
      for i := 0 to |order|
        invariant FirstQueued(order, states) == FirstQueued(order[i..], states)
      {
        if order[i] in states && states[order[i]].status == Queued {
          return order[i];
        }
        assert order[i..][1..] == order[i + 1..];
      }
      return NoRun;
    }

    method ResetQueued()
      modifies this`states
      ensures View() == Apply(old(View()), Op.ResetQueued)
    {
      var ids := states.Keys;
      while ids != {}
        invariant ids <= old(states).Keys
        invariant states == RequeuedBut(old(states), ids)
        decreases |ids|
      {
        var id :| id in ids;
        if states[id].status == Failed || states[id].status == Success {
          states := states[id := FreshState()];
        }
        ids := ids - {id};
      }
      assert states == Requeued(old(states));
    }

    method ReplaceMatrix(mf: MatrixFile)
      modifies this
      ensures View() == Apply(old(View()), Op.ReplaceMatrix(mf))
    {
      file := mf;
      var newOrder: seq<RunId> := [];
      for i := 0 to |mf.runs|
        invariant file == mf
        invariant newOrder == Ids(mf.runs)[..i]
        invariant states == WithFresh(old(states), newOrder)
      {
        var id := mf.runs[i].id;
        WithFreshNext(old(states), newOrder, id);
        newOrder := newOrder + [id];
        if id !in states {
          states := states[id := FreshState()];
        }
      }
      order := newOrder;
    }

    method UpdateSpec(id: RunId, updated: RunSpec) returns (ok: bool)
      modifies this`file
      ensures View() == Apply(old(View()), Op.UpdateSpec(id, updated))
      ensures ok <==> StatusOf(old(View()), id) != Some(Running) && FindSpec(old(file).runs, id).Some?
    {
      if id in states && states[id].status == Running {
        return false;
      }
      for i := 0 to |file.runs|
        invariant file == old(file)
        invariant forall j :: 0 <= j < i ==> file.runs[j].id != id
      {
        if file.runs[i].id == id {
          WithSpecAt(file.runs, id, updated, i);
          file := file.(runs := file.runs[i := updated]);
          return true;
        }
      }
      WithSpecAt(file.runs, id, updated, |file.runs|);
      return false;
    }

    method DeleteRun(id: RunId) returns (ok: bool)
      modifies this
      ensures View() == Apply(old(View()), Op.DeleteRun(id))
      ensures ok <==> StatusOf(old(View()), id) != Some(Running)
    {
      if id in states && states[id].status == Running {
        return false;
      }
      file := file.(runs := SpecsWithout(file.runs, id));
      order := Without(order, id);
      states := states - {id};
      return true;
    }

    method MoveAfter(id: RunId, after: RunId) returns (ok: bool)
      modifies this`order
      ensures View() == Apply(old(View()), Op.MoveAfter(id, after))
      ensures ok <==> CanMove(old(order), id, after)
    {
      if id !in order {
        return false;
      }
      if after != NoRun && after !in order {
        return false;
      }
      order := Without(order, id);
      if after == NoRun {
        order := [id] + order;
      } else {
        var rest := order;
        for i := 0 to |rest|
          invariant order == rest
          invariant forall j :: 0 <= j < i ==> rest[j] != after
        {
          if rest[i] == after {
            InsertAfterAt(rest, after, id, i);
            order := rest[..i + 1] + [id] + rest[i + 1..];
            return true;
          }
        }
        InsertAfterAt(rest, after, id, |rest|);
        order := order + [id];
      }
      return true;
    }

    method UpdateDefaults(defaults: GlobalDefaults)
      modifies this`file
      ensures View() == Apply(old(View()), Op.UpdateDefaults(defaults))
    {
      file := file.(defaults := defaults);
    }
  }
}
