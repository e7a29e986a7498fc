/** The sliding window of reactive targets that holds back scale-downs. */
module StabilizationWindow {
  import opened Basics

  datatype Record = Record(at: int, target: int)

  /** Drops the leading records older than the cutoff, as the source's loop does. */
  function DropBefore(w: seq<Record>, cutoff: int): seq<Record> {
    if w == [] || w[0].at >= cutoff then w else DropBefore(w[1..], cutoff)
  }

  /** The window after a poll at `now`; a window of zero or less records nothing. */
  function Push(w: seq<Record>, now: int, target: int, window: int): seq<Record> {
    if window <= 0 then w else DropBefore(w + [Record(now, target)], now - window)
  }

  /** The largest of `least` and the targets in the window. */
  function MaxTarget(w: seq<Record>, least: int): int {
    if w == [] then least else MaxInt(MaxTarget(Init(w), least), Last(w).target)
  }

  function Stabilized(w: seq<Record>, now: int, target: int, window: int): int {
    if window <= 0 then target else MaxTarget(Push(w, now, target, window), target)
  }

  // ---- What the window holds ------------------------------------------------------

  lemma {:induction false} DropBeforeSuffix(w: seq<Record>, cutoff: int) returns (k: nat)
    ensures k <= |w| && DropBefore(w, cutoff) == w[k..]
    ensures forall i :: 0 <= i < k ==> w[i].at < cutoff
    ensures k < |w| ==> w[k].at >= cutoff
  {
    if w == [] || w[0].at >= cutoff {
      k := 0;
    } else {
      var j := DropBeforeSuffix(w[1..], cutoff);
      k := j + 1;
      forall i | 0 <= i < k
        ensures w[i].at < cutoff
      {
        assert i > 0 ==> w[i] == w[1..][i - 1];
      }
    }
  }

  /** Nothing is kept that was not there, and nothing young enough is lost. */
  lemma {:induction false} PushMembers(w: seq<Record>, now: int, target: int, window: int)
    requires window > 0
    ensures Record(now, target) in Push(w, now, target, window)
    ensures forall r :: r in Push(w, now, target, window) ==> r in w || r == Record(now, target)
    ensures forall r :: r in w && r.at >= now - window ==> r in Push(w, now, target, window)
  {
    var all := w + [Record(now, target)];
    var k := DropBeforeSuffix(all, now - window);
    assert all[k..] == Push(w, now, target, window);
    assert all[|w|] == Record(now, target);
    assert k <= |w|;
    assert all[k..][|w| - k] == Record(now, target);
    forall r | r in w && r.at >= now - window
      ensures r in all[k..]
    {
      var i :| 0 <= i < |w| && w[i] == r;
      assert all[i] == r && i >= k;
      assert all[k..][i - k] == r;
    }
  }

  lemma {:induction false} MaxTargetIsMax(w: seq<Record>, least: int)
    ensures MaxTarget(w, least) >= least
    ensures forall r :: r in w ==> r.target <= MaxTarget(w, least)
    ensures MaxTarget(w, least) == least || exists r :: r in w && r.target == MaxTarget(w, least)
  {
    if w != [] {
      MaxTargetIsMax(Init(w), least);
      assert Last(w) in w;
      forall r | r in w
        ensures r.target <= MaxTarget(w, least)
      {
        assert r in Init(w) || r == Last(w);
      }
    }
  }

  // ---- The window refines the full history ---------------------------------------------

  /** In time order, the last record no later than `bound`. */
  ghost predicate SortedUpTo(w: seq<Record>, bound: int) {
    w == [] || (Last(w).at <= bound && SortedUpTo(Init(w), Last(w).at))
  }

  /** The records at or after the cutoff, in order: a reference for what the window should hold. */
  function KeepFrom(w: seq<Record>, cutoff: int): seq<Record> {
    if w == [] then []
    else if Last(w).at >= cutoff then KeepFrom(Init(w), cutoff) + [Last(w)]
    else KeepFrom(Init(w), cutoff)
  }

  lemma {:induction false} KeepFromMember(w: seq<Record>, cutoff: int, r: Record)
    ensures r in KeepFrom(w, cutoff) <==> r in w && r.at >= cutoff
  {
    if w != [] {
      KeepFromMember(Init(w), cutoff, r);
      assert r in w <==> r in Init(w) || r == Last(w);
    }
  }

  lemma {:induction false} KeepFromSorted(w: seq<Record>, cutoff: int, bound: int)
    requires SortedUpTo(w, bound)
    ensures SortedUpTo(KeepFrom(w, cutoff), bound)
    ensures bound < cutoff ==> KeepFrom(w, cutoff) == []
  {
    if w != [] {
      KeepFromSorted(Init(w), cutoff, Last(w).at);
      if Last(w).at >= cutoff {
        assert Init(KeepFrom(Init(w), cutoff) + [Last(w)]) == KeepFrom(Init(w), cutoff);
      }
    }
  }

  lemma {:induction false} DropBeforeAppend(w: seq<Record>, r: Record, cutoff: int)
    ensures DropBefore(w + [r], cutoff) ==
            if DropBefore(w, cutoff) == [] && r.at < cutoff then [] else DropBefore(w, cutoff) + [r]
  {
    if w == [] {
      assert w + [r] == [r] && [r][1..] == [];
    } else if w[0].at < cutoff {
      DropBeforeAppend(w[1..], r, cutoff);
      assert (w + [r])[1..] == w[1..] + [r];
    }
  }

  /** On records in time order the source's prefix drop is the filter. */
  lemma {:induction false} DropIsKeep(w: seq<Record>, cutoff: int, bound: int)
    requires SortedUpTo(w, bound)
    ensures DropBefore(w, cutoff) == KeepFrom(w, cutoff)
  {
    if w != [] {
      DropIsKeep(Init(w), cutoff, Last(w).at);
      DropBeforeAppend(Init(w), Last(w), cutoff);
      assert Init(w) + [Last(w)] == w;
      KeepFromSorted(Init(w), cutoff, Last(w).at);
    }
  }

  lemma {:induction false} KeepTwice(w: seq<Record>, r: Record, c: int, d: int)
    requires r.at >= c
    ensures KeepFrom(KeepFrom(w, c) + [r], d) == KeepFrom(w + [r], MaxInt(c, d))
  {
    KeepKeep(w, c, d);
    assert Init(w + [r]) == w && Init(KeepFrom(w, c) + [r]) == KeepFrom(w, c);
  }

  lemma {:induction false} KeepKeep(w: seq<Record>, c: int, d: int)
    ensures KeepFrom(KeepFrom(w, c), d) == KeepFrom(w, MaxInt(c, d))
  {
    if w != [] {
      KeepKeep(Init(w), c, d);
      assert Init(KeepFrom(Init(w), c) + [Last(w)]) == KeepFrom(Init(w), c);
    }
  }

  /** One call of the stabiliser: its clock reading, the raw target and the configured window. */
  datatype Call = Call(now: int, target: int, window: int)

  /** What the source retains after a sequence of calls. */
  function Retained(calls: seq<Call>): seq<Record> {
    if calls == [] then []
    else var c := Last(calls); Push(Retained(Init(calls)), c.now, c.target, c.window)
  }

  /** Every target that was ever recorded. */
  function Recorded(calls: seq<Call>): seq<Record> {
    if calls == [] then []
    else if Last(calls).window > 0 then Recorded(Init(calls)) + [Record(Last(calls).now, Last(calls).target)]
    else Recorded(Init(calls))
  }

  /** The largest cutoff any call has applied. */
  function LargestCutoff(calls: seq<Call>): Option<int> {
    if calls == [] then None
    else if Last(calls).window > 0 then
      Some(Later(LargestCutoff(Init(calls)), Last(calls).now - Last(calls).window))
    else LargestCutoff(Init(calls))
  }

  function Later(before: Option<int>, cutoff: int): int {
    if before.None? then cutoff else MaxInt(before.value, cutoff)
  }

  ghost predicate IsFilter(kept: seq<Record>, all: seq<Record>, cutoff: Option<int>) {
    match cutoff
    case None => kept == [] && all == []
    case Some(c) => kept == KeepFrom(all, c)
  }

  ghost predicate Clocked(calls: seq<Call>) {
    forall i, j :: 0 <= i < j < |calls| ==> calls[i].now <= calls[j].now
  }

  lemma {:induction false} RecordedInOrder(calls: seq<Call>)
    requires Clocked(calls) && calls != []
    ensures SortedUpTo(Recorded(calls), Last(calls).now)
    ensures LargestCutoff(calls).Some? ==> LargestCutoff(calls).value <= Last(calls).now
  {
    var earlier := Init(calls);
    if earlier != [] {
      RecordedInOrder(earlier);
      assert Last(earlier).now <= Last(calls).now;
    }
    if Last(calls).window > 0 {
      assert Init(Recorded(calls)) == Recorded(earlier);
    }
  }

  /** Pushing onto a filtered history filters the longer history by the larger cutoff. */
  lemma {:induction false} PushIsFilter(all: seq<Record>, cutoff: int, now: int, target: int, window: int)
    requires window > 0 && SortedUpTo(all, now) && cutoff <= now
    ensures Push(KeepFrom(all, cutoff), now, target, window)
         == KeepFrom(all + [Record(now, target)], MaxInt(cutoff, now - window))
  {
    var r := Record(now, target);
    var kept := KeepFrom(all, cutoff);
    KeepFromSorted(all, cutoff, now);
    SortedAppend(kept, r);
    DropIsKeep(kept + [r], now - window, now);
    KeepTwice(all, r, cutoff, now - window);
  }

  lemma {:induction false} SortedAppend(w: seq<Record>, r: Record)
    requires SortedUpTo(w, r.at)
    ensures SortedUpTo(w + [r], r.at)
  {
    assert Init(w + [r]) == w;
  }

  /** For any clock that does not go back, and windows that may change from call to call, the window
      is exactly the recorded targets at or after the largest cutoff so far. */
  lemma {:induction false} RetainedIsFilter(calls: seq<Call>)
    requires Clocked(calls)
    ensures IsFilter(Retained(calls), Recorded(calls), LargestCutoff(calls))
  {
    if calls != [] {
      var earlier := Init(calls);
      var c := Last(calls);
      RetainedIsFilter(earlier);
      if earlier != [] {
        RecordedInOrder(earlier);
        assert Last(earlier).now <= c.now;
      }
      if c.window > 0 {
        var cutoff := if LargestCutoff(earlier).Some? then LargestCutoff(earlier).value else c.now - c.window;
        assert Retained(earlier) == KeepFrom(Recorded(earlier), cutoff);
        PushIsFilter(Recorded(earlier), cutoff, c.now, c.target, c.window);
      }
    }
  }

  lemma {:induction false} CutoffOfConstantWindow(calls: seq<Call>, window: int)
    requires Clocked(calls) && window > 0 && calls != []
    requires forall i :: 0 <= i < |calls| ==> calls[i].window == window
    ensures LargestCutoff(calls) == Some(Last(calls).now - window)
  {
    var earlier := Init(calls);
    if earlier != [] {
      CutoffOfConstantWindow(earlier, window);
      assert Last(earlier).now <= Last(calls).now;
    }
  }

  lemma {:induction false} RecordedOfConstantWindow(calls: seq<Call>, window: int)
    requires window > 0
    requires forall i :: 0 <= i < |calls| ==> calls[i].window == window
    ensures |Recorded(calls)| == |calls|
    ensures forall i :: 0 <= i < |calls| ==> Recorded(calls)[i] == Record(calls[i].now, calls[i].target)
  {
    if calls != [] {
      RecordedOfConstantWindow(Init(calls), window);
    }
  }

  /** With a constant window the answer is the largest target of the last `window` ticks:
      no younger call asked for more, and some call in that span asked for exactly this. */
  lemma {:induction false} ConstantWindowMaximum(calls: seq<Call>, window: int, answer: int)
    requires Clocked(calls) && window > 0 && calls != []
    requires forall i :: 0 <= i < |calls| ==> calls[i].window == window
    requires answer == Stabilized(Retained(Init(calls)), Last(calls).now, Last(calls).target, window)
    ensures forall i :: 0 <= i < |calls| && calls[i].now >= Last(calls).now - window ==> calls[i].target <= answer
    ensures exists i :: 0 <= i < |calls| && calls[i].now >= Last(calls).now - window && calls[i].target == answer
  {
    var cutoff := Last(calls).now - window;
    MaxTargetIsMax(Retained(calls), Last(calls).target);
    forall i | 0 <= i < |calls| && calls[i].now >= cutoff
      ensures calls[i].target <= answer
    {
      RecentIsRetained(calls, window, i);
    }
    if answer == Last(calls).target {
      assert calls[|calls| - 1].target == answer;
    } else {
      var r :| r in Retained(calls) && r.target == answer;
      var i := RetainedIsRecent(calls, window, r);
    }
  }

  lemma {:induction false} RetainedOfConstantWindow(calls: seq<Call>, window: int)
    requires calls != [] && Clocked(calls) && window > 0
    requires forall j :: 0 <= j < |calls| ==> calls[j].window == window
    ensures Retained(calls) == KeepFrom(Recorded(calls), Last(calls).now - window)
  {
    RetainedIsFilter(calls);
    CutoffOfConstantWindow(calls, window);
  }

  lemma {:induction false} RecentIsRetained(calls: seq<Call>, window: int, i: nat)
    requires calls != [] && Clocked(calls) && window > 0
    requires i < |calls| && calls[i].now >= Last(calls).now - window
    requires forall j :: 0 <= j < |calls| ==> calls[j].window == window
    ensures Record(calls[i].now, calls[i].target) in Retained(calls)
  {
    RetainedOfConstantWindow(calls, window);
    RecordedOfConstantWindow(calls, window);
    var r := Recorded(calls)[i];
    assert r in Recorded(calls);
    KeepFromMember(Recorded(calls), Last(calls).now - window, r);
  }

  lemma {:induction false} RetainedIsRecent(calls: seq<Call>, window: int, r: Record) returns (i: nat)
    requires calls != [] && Clocked(calls) && window > 0 && r in Retained(calls)
    requires forall j :: 0 <= j < |calls| ==> calls[j].window == window
    ensures i < |calls| && calls[i].now >= Last(calls).now - window && r == Record(calls[i].now, calls[i].target)
  {
    RetainedOfConstantWindow(calls, window);
    RecordedOfConstantWindow(calls, window);
    KeepFromMember(Recorded(calls), Last(calls).now - window, r);
    i :| 0 <= i < |Recorded(calls)| && Recorded(calls)[i] == r;
  }
}
