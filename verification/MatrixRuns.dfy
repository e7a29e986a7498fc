/** What the matrix store keeps under any sequence of operations. */
module MatrixRuns {
  import opened Basics
  import opened MatrixStore

  ghost predicate NoDup<T(!new)>(q: seq<T>) {
    forall i, j :: 0 <= i < j < |q| ==> q[i] != q[j]
  }

  /** The order lists exactly the specified IDs, each once, none of them empty, and each has a state. */
  ghost predicate Consistent(s: State) {
    && NoDup(s.order) && NoRun !in s.order
    && NoDup(Ids(s.file.runs))
    && (forall id :: id in s.order <==> id in Ids(s.file.runs))
    && (forall id :: id in s.order ==> id in s.states)
  }

  /** What the API layer lets through: unique non-empty IDs in a new matrix, and a patch that keeps its ID. */
  ghost predicate Admitted(op: Op) {
    match op
    case ReplaceMatrix(mf) => NoDup(Ids(mf.runs)) && NoRun !in Ids(mf.runs)
    case UpdateSpec(id, updated) => updated.id == id
    case _ => true
  }

  // ---- Facts about the sequence edits ---------------------------------------------------

  lemma {:induction false} WithoutMember<T>(order: seq<T>, id: T, x: T)
    ensures x in Without(order, id) <==> x in order && x != id
  {
    if order != [] {
      WithoutMember(Init(order), id, x);
      assert x in order <==> x in Init(order) || x == Last(order);
    }
  }

  lemma {:induction false} NoDupAppend<T(!new)>(q: seq<T>, x: T)
    requires NoDup(q) && x !in q
    ensures NoDup(q + [x])
  {
  }

  lemma {:induction false} WithoutNoDup<T(!new)>(order: seq<T>, id: T)
    requires NoDup(order)
    ensures NoDup(Without(order, id))
  {
    if order != [] {
      WithoutNoDup(Init(order), id);
      WithoutMember(Init(order), id, Last(order));
      if Last(order) != id {
        assert Last(order) !in Init(order);
        NoDupAppend(Without(Init(order), id), Last(order));
      }
    }
  }

  lemma {:induction false} IdsWithout(runs: seq<RunSpec>, id: RunId)
    ensures Ids(SpecsWithout(runs, id)) == Without(Ids(runs), id)
  {
    if runs != [] {
      IdsWithout(Init(runs), id);
      assert Init(Ids(runs)) == Ids(Init(runs)) && Last(Ids(runs)) == Last(runs).id;
      if Last(runs).id != id {
        assert Ids(SpecsWithout(Init(runs), id) + [Last(runs)]) == Ids(SpecsWithout(Init(runs), id)) + [Last(runs).id];
      }
    }
  }

  lemma {:induction false} IdsWithSpec(runs: seq<RunSpec>, id: RunId, updated: RunSpec)
    requires updated.id == id
    ensures Ids(WithSpec(runs, id, updated)) == Ids(runs)
  {
    if runs != [] {
      assert Ids(runs) == [runs[0].id] + Ids(runs[1..]);
      if runs[0].id == id {
        assert Ids([updated] + runs[1..]) == [id] + Ids(runs[1..]);
      } else {
        IdsWithSpec(runs[1..], id, updated);
        var rest := WithSpec(runs[1..], id, updated);
        assert Ids([runs[0]] + rest) == [runs[0].id] + Ids(rest);
      }
    }
  }

  /** Inserting puts one element somewhere and leaves the rest as it is. */
  lemma {:induction false} InsertAfterSplits<T>(order: seq<T>, anchor: T, id: T) returns (k: nat)
    ensures k <= |order| && InsertAfter(order, anchor, id) == order[..k] + [id] + order[k..]
    ensures anchor in order ==> k > 0 && order[k - 1] == anchor
    ensures anchor !in order ==> k == |order|
  {
    if order == [] {
      k := 0;
    } else if order[0] == anchor {
      k := 1;
    } else {
      var j := InsertAfterSplits(order[1..], anchor, id);
      k := j + 1;
      assert anchor in order <==> anchor in order[1..];
      assert order[..k] == [order[0]] + order[1..][..j] && order[k..] == order[1..][j..];
    }
  }

  lemma {:induction false} SpliceNoDup<T(!new)>(q: seq<T>, k: nat, id: T)
    requires NoDup(q) && id !in q && k <= |q|
    ensures NoDup(q[..k] + [id] + q[k..])
  {
    var r := q[..k] + [id] + q[k..];
    forall i, j | 0 <= i < j < |r|
      ensures r[i] != r[j]
    {
      assert i < k ==> r[i] == q[i];
      assert j < k ==> r[j] == q[j];
      assert i > k ==> r[i] == q[i - 1];
      assert j > k ==> r[j] == q[j - 1];
    }
  }

  lemma {:induction false} WithoutAbsent<T>(q: seq<T>, id: T)
    requires forall i :: 0 <= i < |q| ==> q[i] != id
    ensures Without(q, id) == q
  {
    if q != [] {
      var last := |q| - 1;
      assert q[last] != id;
      calc {
        Without(q, id);
        Without(Init(q), id) + [q[last]];
        { WithoutAbsent(Init(q), id); }
        q[..last] + [q[last]];
        q;
      }
    }
  }

  // ---- Moving a run ----------------------------------------------------------------------------

  /** A move permutes the order and keeps the others' relative order. */
  lemma {:induction false} MoveKeepsTheRest(order: seq<RunId>, id: RunId, after: RunId)
    requires NoDup(order) && CanMove(order, id, after)
    ensures NoDup(Moved(order, id, after))
    ensures forall x :: x in Moved(order, id, after) <==> x in order
    ensures Without(Moved(order, id, after), id) == Without(order, id)
  {
    var rest := Without(order, id);
    WithoutNoDup(order, id);
    WithoutMember(order, id, id);
    var k := 0;
    if after != NoRun {
      k := InsertAfterSplits(rest, after, id);
    } else {
      assert [id] + rest == rest[..0] + [id] + rest[0..];
    }
    SpliceNoDup(rest, k, id);
    forall x
      ensures x in Moved(order, id, after) <==> x in order
    {
      WithoutMember(order, id, x);
      SpliceMember(rest, k, id, x);
    }
    SpliceWithout(rest, k, id);
  }

  lemma {:induction false} SpliceMember<T>(q: seq<T>, k: nat, id: T, x: T)
    requires k <= |q|
    ensures x in q[..k] + [id] + q[k..] <==> x in q || x == id
  {
    assert q == q[..k] + q[k..];
  }

  lemma {:induction false} SpliceWithout<T>(q: seq<T>, k: nat, id: T)
    requires k <= |q| && forall i :: 0 <= i < |q| ==> q[i] != id
    ensures Without(q[..k] + [id] + q[k..], id) == q
  {
    var r := q[..k] + [id] + q[k..];
    if k == |q| {
      assert Init(r) == q;
      WithoutAbsent(q, id);
    } else {
      var last := |q| - 1;
      assert Init(r) == Init(q)[..k] + [id] + Init(q)[k..];
      assert Last(r) == q[last] != id;
      calc {
        Without(r, id);
        Without(Init(r), id) + [q[last]];
        { SpliceWithout(Init(q), k, id); }
        q[..last] + [q[last]];
        q;
      }
    }
  }

  ghost predicate DirectlyAfter(order: seq<RunId>, anchor: RunId, id: RunId) {
    exists i :: 0 < i < |order| && order[i - 1] == anchor && order[i] == id
  }

  /** A move puts the run directly after its anchor exactly when the two differ; moved behind itself it goes last. */
  lemma {:induction false} MoveLandsAfterAnchor(order: seq<RunId>, id: RunId, after: RunId)
    requires NoDup(order) && CanMove(order, id, after) && after != NoRun
    ensures DirectlyAfter(Moved(order, id, after), after, id) <==> id != after
    ensures id == after ==> Moved(order, id, after) == Without(order, id) + [id]
  {
    var rest := Without(order, id);
    WithoutMember(order, id, after);
    var k := InsertAfterSplits(rest, after, id);
    var moved := rest[..k] + [id] + rest[k..];
    if id != after {
      assert moved[k - 1] == after && moved[k] == id;
    } else {
      assert rest[..k] == rest && rest[k..] == [];
      MoveKeepsTheRest(order, id, after);
    }
  }

  /** Without an anchor the run goes first. */
  lemma {:induction false} MoveToFront(order: seq<RunId>, id: RunId)
    requires NoDup(order) && id in order
    ensures Moved(order, id, NoRun)[0] == id && Moved(order, id, NoRun)[1..] == Without(order, id)
  {
  }

  // ---- Consistency under any sequence of operations ------------------------------------------------

  lemma {:induction false} ReplaceConsistent(s: State, mf: MatrixFile)
    requires NoDup(Ids(mf.runs)) && NoRun !in Ids(mf.runs)
    ensures Consistent(Replaced(s, mf))
  {
  }

  lemma {:induction false} DeleteConsistent(s: State, id: RunId)
    requires Consistent(s)
    ensures Consistent(Apply(s, DeleteRun(id)))
  {
    WithoutNoDup(s.order, id);
    WithoutNoDup(Ids(s.file.runs), id);
    IdsWithout(s.file.runs, id);
    forall x
      ensures x in Without(s.order, id) <==> x in s.order && x != id
      ensures x in Without(Ids(s.file.runs), id) <==> x in Ids(s.file.runs) && x != id
    {
      WithoutMember(s.order, id, x);
      WithoutMember(Ids(s.file.runs), id, x);
    }
  }

  lemma {:induction false} OpKeepsConsistent(s: State, op: Op)
    requires Consistent(s) && Admitted(op)
    ensures Consistent(Apply(s, op))
  {
    match op
    case ReplaceMatrix(mf) => ReplaceConsistent(s, mf);
    case UpdateSpec(id, updated) => IdsWithSpec(s.file.runs, id, updated);
    case DeleteRun(id) => DeleteConsistent(s, id);
    case MoveAfter(id, after) =>
      if CanMove(s.order, id, after) {
        MoveKeepsTheRest(s.order, id, after);
      }
    case _ =>
  }

  function ApplyAll(s: State, ops: seq<Op>): State {
    if ops == [] then s else Apply(ApplyAll(s, Init(ops)), Last(ops))
  }

  lemma {:induction false} NoDupCount<T(!new)>(q: seq<T>, x: T)
    requires NoDup(q)
    ensures multiset(q)[x] == if x in q then 1 else 0
  {
    if q != [] {
      NoDupCount(Init(q), x);
      assert q == Init(q) + [Last(q)];
      assert Last(q) !in Init(q);
    }
  }

  /** Loaded from a file of unique IDs and put through any admitted operations, the order is a duplicate-free
      permutation of the specified IDs and every ordered run has a state. */
  lemma {:induction false} StoreStaysConsistent(mf: MatrixFile, ops: seq<Op>)
    requires NoDup(Ids(mf.runs)) && NoRun !in Ids(mf.runs)
    requires forall i :: 0 <= i < |ops| ==> Admitted(ops[i])
    ensures var s := ApplyAll(Replaced(State(mf, [], map[]), mf), ops);
            && Consistent(s)
            && multiset(s.order) == multiset(Ids(s.file.runs))
  {
    var start := Replaced(State(mf, [], map[]), mf);
    if ops == [] {
      ReplaceConsistent(State(mf, [], map[]), mf);
    } else {
      StoreStaysConsistent(mf, Init(ops));
      assert Admitted(ops[|ops| - 1]);
      OpKeepsConsistent(ApplyAll(start, Init(ops)), Last(ops));
    }
    var s := ApplyAll(start, ops);
    forall x
      ensures multiset(s.order)[x] == multiset(Ids(s.file.runs))[x]
    {
      NoDupCount(s.order, x);
      NoDupCount(Ids(s.file.runs), x);
    }
  }

  // ---- Round trip ---------------------------------------------------------------------------------------

  lemma {:induction false} SpecByIdKeys(runs: seq<RunSpec>, id: RunId)
    ensures id in SpecById(runs) <==> id in Ids(runs)
    ensures id in SpecById(runs) ==> SpecById(runs)[id].id == id
  {
    if runs != [] {
      SpecByIdKeys(Init(runs), id);
      assert Ids(runs) == Ids(Init(runs)) + [Last(runs).id];
    }
  }

  ghost predicate Covers(specs: map<RunId, RunSpec>, order: seq<RunId>) {
    forall id :: id in order ==> id in specs && specs[id].id == id
  }

  lemma {:induction false} OrderedRoundTrip(order: seq<RunId>, specs: map<RunId, RunSpec>)
    requires Covers(specs, order)
    ensures Ids(Ordered(order, specs)) == order
    ensures forall id :: id in order ==>
              id in SpecById(Ordered(order, specs)) && SpecById(Ordered(order, specs))[id] == specs[id]
  {
    if order != [] {
      var id := Last(order);
      assert id in order;
      OrderedRoundTrip(Init(order), specs);
      var earlier := Ordered(Init(order), specs);
      assert Ordered(order, specs) == earlier + [specs[id]];
      assert Init(earlier + [specs[id]]) == earlier;
      assert Ids(earlier + [specs[id]]) == Ids(earlier) + [id];
      assert order == Init(order) + [id];
    }
  }

  lemma {:induction false} RunsAgree(order: seq<RunId>, specs: map<RunId, RunSpec>, specs': map<RunId, RunSpec>,
                                     states: map<RunId, RunState>)
    requires forall id :: id in order ==> id in specs && id in specs' && specs[id] == specs'[id]
    ensures RunsIn(order, specs, states) == RunsIn(order, specs', states)
  {
    if order != [] {
      assert Last(order) in order;
      RunsAgree(Init(order), specs, specs', states);
    }
  }

  /** Replacing the matrix by what the store itself exports changes no run, no order and no state. */
  lemma {:induction false} ExportRoundTrip(s: State)
    requires Consistent(s)
    ensures var t := Replaced(s, MatrixFileOf(s));
            && t.order == s.order && t.states == s.states
            && RunsOf(t) == RunsOf(s)
            && MatrixFileOf(t) == MatrixFileOf(s)
  {
    var specs := SpecById(s.file.runs);
    forall id | id in s.order
      ensures id in specs && specs[id].id == id
    {
      SpecByIdKeys(s.file.runs, id);
    }
    OrderedRoundTrip(s.order, specs);
    var t := Replaced(s, MatrixFileOf(s));
    assert t.order == s.order;
    assert t.states == s.states;
    RunsAgree(s.order, specs, SpecById(t.file.runs), s.states);
    OrderedAgree(s.order, specs, SpecById(t.file.runs));
  }

  lemma {:induction false} OrderedAgree(order: seq<RunId>, specs: map<RunId, RunSpec>, specs': map<RunId, RunSpec>)
    requires forall id :: id in order ==> id in specs && id in specs' && specs[id] == specs'[id]
    ensures Ordered(order, specs) == Ordered(order, specs')
  {
    if order != [] {
      assert Last(order) in order;
      OrderedAgree(Init(order), specs, specs');
    }
  }

  // ---- What each operation does, run by run ------------------------------------------------------------------

  /** Waiting, with nothing recorded and every step still to come. */
  ghost predicate IsFresh(state: RunState) {
    && state.status == Queued && state.startedAt.None? && state.endedAt.None?
    && state.errMsg == "" && state.gcsPath == ""
    && forall i :: 0 <= i < |state.steps| ==> state.steps[i].status == StepPending
  }

  /** A retry makes exactly the ended runs fresh: the successful and the failed ones. */
  lemma {:induction false} RetryExactly(s: State, id: RunId)
    requires id in s.states
    ensures var (t, status) := (Apply(s, ResetQueued), s.states[id].status);
            && t.order == s.order && t.file == s.file && t.states.Keys == s.states.Keys
            && (status == Success || status == Failed ==> IsFresh(t.states[id]))
            && (status == Queued || status == Running || status == Skipped ==> t.states[id] == s.states[id])
  {
  }

  /** A replaced matrix has the new runs in their order; runs that had a state keep it and new ones wait. */
  lemma {:induction false} ReplaceExactly(s: State, mf: MatrixFile, id: RunId)
    ensures var t := Apply(s, ReplaceMatrix(mf));
            && t.file == mf && |t.order| == |mf.runs|
            && (forall i :: 0 <= i < |mf.runs| ==> t.order[i] == mf.runs[i].id)
            && (id in s.states ==> id in t.states && t.states[id] == s.states[id])
            && (id !in s.states ==>
                  (id in t.states <==> exists i :: 0 <= i < |mf.runs| && mf.runs[i].id == id)
                  && (id in t.states ==> IsFresh(t.states[id])))
  {
    var t := Apply(s, ReplaceMatrix(mf));
    assert id in Ids(mf.runs) <==> exists i :: 0 <= i < |mf.runs| && Ids(mf.runs)[i] == id;
    if id in Ids(mf.runs) {
      var i :| 0 <= i < |mf.runs| && Ids(mf.runs)[i] == id;
      assert mf.runs[i].id == id;
    }
    if i :| 0 <= i < |mf.runs| && mf.runs[i].id == id {
      assert Ids(mf.runs)[i] == id;
    }
  }

  lemma {:induction false} FoundIsThere(runs: seq<RunSpec>, id: RunId)
    ensures FindSpec(runs, id).Some? <==> id in Ids(runs)
    ensures FindSpec(runs, id).Some? ==> FindSpec(runs, id).value in runs && FindSpec(runs, id).value.id == id
  {
    if runs != [] {
      FoundIsThere(runs[1..], id);
      assert Ids(runs) == [runs[0].id] + Ids(runs[1..]);
    }
  }

  lemma {:induction false} OneSpecPerId(runs: seq<RunSpec>, a: RunSpec, b: RunSpec)
    requires NoDup(Ids(runs)) && a in runs && b in runs && a.id == b.id
    ensures a == b
  {
    var i :| 0 <= i < |runs| && runs[i] == a;
    var j :| 0 <= j < |runs| && runs[j] == b;
    assert Ids(runs)[i] == Ids(runs)[j];
  }

  lemma {:induction false} SpecByIdFinds(runs: seq<RunSpec>, id: RunId)
    ensures id in SpecById(runs) ==> SpecById(runs)[id] in runs && SpecById(runs)[id].id == id
    ensures id in SpecById(runs) <==> id in Ids(runs)
  {
    SpecByIdKeys(runs, id);
    if runs != [] {
      SpecByIdFinds(Init(runs), id);
      assert runs == Init(runs) + [Last(runs)];
    }
  }

  /** With unique IDs the two ways of looking up a spec agree. */
  lemma {:induction false} LookupsAgree(runs: seq<RunSpec>, id: RunId)
    requires NoDup(Ids(runs)) && id in Ids(runs)
    ensures id in SpecById(runs) && FindSpec(runs, id) == Some(SpecById(runs)[id])
  {
    FoundIsThere(runs, id);
    SpecByIdFinds(runs, id);
    OneSpecPerId(runs, FindSpec(runs, id).value, SpecById(runs)[id]);
  }

  lemma {:induction false} DeletedSpecs(runs: seq<RunSpec>, id: RunId, spec: RunSpec)
    ensures spec in SpecsWithout(runs, id) <==> spec in runs && spec.id != id
  {
    if runs != [] {
      DeletedSpecs(Init(runs), id, spec);
      assert spec in runs <==> spec in Init(runs) || spec == Last(runs);
    }
  }

  lemma {:induction false} WithoutAt<T(!new)>(q: seq<T>, k: nat)
    requires NoDup(q) && k < |q|
    ensures Without(q, q[k]) == q[..k] + q[k + 1..]
  {
    var rest := q[..k] + q[k + 1..];
    assert q == rest[..k] + [q[k]] + rest[k..];
    SpliceWithout(rest, k, q[k]);
  }

  /** A deleted run is gone from the order, the specs and the states, and nothing else has moved or changed. */
  lemma {:induction false} DeletedIsGone(s: State, id: RunId, k: nat)
    requires Consistent(s) && StatusOf(s, id) != Some(Running) && k < |s.order| && s.order[k] == id
    ensures var t := Apply(s, DeleteRun(id));
            && t.order == s.order[..k] + s.order[k + 1..]
            && (forall spec :: spec in t.file.runs <==> spec in s.file.runs && spec.id != id)
            && t.file.defaults == s.file.defaults
            && (forall other :: other in t.states <==> other in s.states && other != id)
            && (forall other :: other in t.states ==> t.states[other] == s.states[other])
  {
    WithoutAt(s.order, k);
    forall spec
      ensures spec in SpecsWithout(s.file.runs, id) <==> spec in s.file.runs && spec.id != id
    {
      DeletedSpecs(s.file.runs, id, spec);
    }
  }

  lemma {:induction false} FindAfterUpdate(runs: seq<RunSpec>, id: RunId, updated: RunSpec, other: RunId)
    requires updated.id == id && FindSpec(runs, id).Some?
    ensures FindSpec(WithSpec(runs, id, updated), other) == if other == id then Some(updated) else FindSpec(runs, other)
  {
    if runs[0].id != id {
      FindAfterUpdate(runs[1..], id, updated, other);
    } else {
      assert ([updated] + runs[1..])[1..] == runs[1..];
    }
  }

  /** A patched run has the new spec, and every other run the one it had. */
  lemma {:induction false} PatchExactly(s: State, id: RunId, updated: RunSpec, other: RunId)
    requires updated.id == id && StatusOf(s, id) != Some(Running) && FindSpec(s.file.runs, id).Some?
    ensures var t := Apply(s, UpdateSpec(id, updated));
            && t.order == s.order && t.states == s.states && Ids(t.file.runs) == Ids(s.file.runs)
            && FindSpec(t.file.runs, other) == if other == id then Some(updated) else FindSpec(s.file.runs, other)
  {
    IdsWithSpec(s.file.runs, id, updated);
    FindAfterUpdate(s.file.runs, id, updated, other);
  }

  lemma {:induction false} RunsInExactly(order: seq<RunId>, specs: map<RunId, RunSpec>, states: map<RunId, RunState>)
    requires forall id :: id in order ==> id in specs && id in states
    ensures |RunsIn(order, specs, states)| == |order|
    ensures forall i :: 0 <= i < |order| ==> RunsIn(order, specs, states)[i] == Run(specs[order[i]], states[order[i]])
  {
    if order != [] {
      assert Last(order) in order;
      RunsInExactly(Init(order), specs, states);
    }
  }

  /** The listed runs are those of the order, one by one, each with its own spec and its own state. */
  lemma {:induction false} RunsExactly(s: State)
    requires Consistent(s)
    ensures |RunsOf(s)| == |s.order|
    ensures forall i :: 0 <= i < |s.order| ==>
              && FindSpec(s.file.runs, s.order[i]) == Some(RunsOf(s)[i].spec)
              && s.order[i] in s.states && RunsOf(s)[i].state == s.states[s.order[i]]
  {
    forall id | id in s.order
      ensures id in SpecById(s.file.runs) && FindSpec(s.file.runs, id) == Some(SpecById(s.file.runs)[id])
    {
      LookupsAgree(s.file.runs, id);
    }
    RunsInExactly(s.order, SpecById(s.file.runs), s.states);
  }

  /** The export lists the same specs in the current order. */
  lemma {:induction false} ExportExactly(s: State, i: nat)
    requires Consistent(s) && i < |s.order|
    ensures var mf := MatrixFileOf(s);
            && mf.defaults == s.file.defaults && Ids(mf.runs) == s.order
            && FindSpec(s.file.runs, s.order[i]) == Some(mf.runs[i])
  {
    var specs := SpecById(s.file.runs);
    forall id | id in s.order
      ensures id in specs && specs[id].id == id && FindSpec(s.file.runs, id) == Some(specs[id])
    {
      LookupsAgree(s.file.runs, id);
      SpecByIdFinds(s.file.runs, id);
    }
    OrderedAt(s.order, specs, i);
    OrderedRoundTrip(s.order, specs);
  }

  lemma {:induction false} OrderedAt(order: seq<RunId>, specs: map<RunId, RunSpec>, i: nat)
    requires i < |order| && forall id :: id in order ==> id in specs
    ensures |Ordered(order, specs)| == |order| && Ordered(order, specs)[i] == specs[order[i]]
  {
    assert Last(order) in order;
    if |order| > 1 {
      OrderedAt(Init(order), specs, if i < |order| - 1 then i else 0);
    } else {
      assert Ordered(Init(order), specs) == [];
    }
  }

  // ---- The next run to execute -------------------------------------------------------------------------------

  ghost predicate IsQueued(states: map<RunId, RunState>, id: RunId) {
    id in states && states[id].status == Queued
  }

  /** The first queued run in order, or nothing exactly when no ordered run is queued. */
  lemma {:induction false} NextIsFirstQueued(order: seq<RunId>, states: map<RunId, RunState>) returns (k: nat)
    requires NoRun !in order
    ensures k <= |order| && forall i :: 0 <= i < k ==> !IsQueued(states, order[i])
    ensures k < |order| ==> FirstQueued(order, states) == order[k] && IsQueued(states, order[k])
    ensures FirstQueued(order, states) == NoRun <==> k == |order|
  {
    if order == [] || IsQueued(states, order[0]) {
      k := 0;
    } else {
      var j := NextIsFirstQueued(order[1..], states);
      k := j + 1;
      forall i | 0 <= i < k
        ensures !IsQueued(states, order[i])
      {
        assert i > 0 ==> order[i] == order[1..][i - 1];
      }
    }
  }
}
