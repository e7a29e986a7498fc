/** What the storage-scaling controller guarantees over whole runs. */
module StorageRuns {
  import opened Basics
  import opened ClusterApi
  import opened StorageDecider
  import opened StorageController
  import RealAlgebra

  /** The state after a sequence of cycles; the controller is the only writer of the sizes. */
  ghost function RunFrom(cfg: Config, s: State, cycles: seq<Cycle>): State {
    if cycles == [] then s else AfterCycle(cfg, RunFrom(cfg, s, Init(cycles)), Last(cycles))
  }

  ghost function Before(cfg: Config, s: State, cycles: seq<Cycle>, i: nat): State
    requires i <= |cycles|
  {
    RunFrom(cfg, s, cycles[..i])
  }

  lemma {:induction false} BeforeNext(cfg: Config, s: State, cycles: seq<Cycle>, i: nat)
    requires i < |cycles|
    ensures Before(cfg, s, cycles, i + 1) == AfterCycle(cfg, Before(cfg, s, cycles, i), cycles[i])
  {
    assert Init(cycles[..i + 1]) == cycles[..i];
  }

  // ---- Growth ------------------------------------------------------------------------------

  /** A write that reached the Cluster: the size it replaced and the size it wrote. */
  datatype Growth = Growth(from: int, toGi: int)

  /** The pgdata sizes written over a run, in order. */
  ghost function PgdataLog(cfg: Config, s: State, cycles: seq<Cycle>): seq<Growth> {
    if cycles == [] then []
    else
      var before := RunFrom(cfg, s, Init(cycles));
      if PgdataResizes(cfg, before, Last(cycles)) && PgdataLands(Last(cycles))
      then PgdataLog(cfg, s, Init(cycles)) + [Growth(before.pgdata.bytes, NextGi(cfg.pgdata, before.pgdata))]
      else PgdataLog(cfg, s, Init(cycles))
  }

  ghost function WalLog(cfg: Config, s: State, cycles: seq<Cycle>): seq<Growth> {
    if cycles == [] then []
    else
      var before := RunFrom(cfg, s, Init(cycles));
      if WalResizes(cfg, before, Last(cycles)) && WalLands(Last(cycles))
      then WalLog(cfg, s, Init(cycles)) + [Growth(WalSize(before.wal).bytes, NextGi(cfg.wal, WalSize(before.wal)))]
      else WalLog(cfg, s, Init(cycles))
  }

  function SizeAfter(start: int, log: seq<Growth>): int {
    if log == [] then start else Last(log).toGi * GIB
  }

  /** Each write starts from the size the one before it left, and writes the size the decider computes from it. */
  ghost predicate IsChain(v: VolumeConfig, start: int, log: seq<Growth>) {
    log == [] ||
    (&& IsChain(v, start, Init(log))
     && Last(log).from == SizeAfter(start, Init(log))
     && NewSize(Bytes(Last(log).from), v.stepPercent, v.maxSizeGi) == Ok(Some(Last(log).toGi)))
  }

  lemma {:induction false} PgdataCycle(cfg: Config, s: State, c: Cycle)
    requires s.pgdata.Bytes?
    ensures PgdataResizes(cfg, s, c) ==>
              NewSize(s.pgdata, cfg.pgdata.stepPercent, cfg.pgdata.maxSizeGi) == Ok(Some(NextGi(cfg.pgdata, s.pgdata)))
    ensures AfterCycle(cfg, s, c).pgdata ==
            if PgdataResizes(cfg, s, c) && PgdataLands(c) then GiSize(NextGi(cfg.pgdata, s.pgdata)) else s.pgdata
  {
  }

  lemma {:induction false} WalCycle(cfg: Config, s: State, c: Cycle)
    requires s.wal.Some? && s.wal.value.Bytes?
    ensures WalResizes(cfg, s, c) ==>
              NewSize(s.wal.value, cfg.wal.stepPercent, cfg.wal.maxSizeGi) == Ok(Some(NextGi(cfg.wal, s.wal.value)))
    ensures AfterCycle(cfg, s, c).wal ==
            Some(if WalResizes(cfg, s, c) && WalLands(c) then GiSize(NextGi(cfg.wal, s.wal.value)) else s.wal.value)
  {
  }

  lemma {:induction false} ChainExtends(v: VolumeConfig, start: int, log: seq<Growth>, toGi: int)
    requires IsChain(v, start, log)
    requires NewSize(Bytes(SizeAfter(start, log)), v.stepPercent, v.maxSizeGi) == Ok(Some(toGi))
    ensures IsChain(v, start, log + [Growth(SizeAfter(start, log), toGi)])
    ensures SizeAfter(start, log + [Growth(SizeAfter(start, log), toGi)]) == toGi * GIB
  {
    assert Init(log + [Growth(SizeAfter(start, log), toGi)]) == log;
  }

  lemma {:induction false} PgdataLogIsChain(cfg: Config, s: State, cycles: seq<Cycle>)
    requires s.pgdata.Bytes?
    ensures IsChain(cfg.pgdata, s.pgdata.bytes, PgdataLog(cfg, s, cycles))
    ensures RunFrom(cfg, s, cycles).pgdata == Bytes(SizeAfter(s.pgdata.bytes, PgdataLog(cfg, s, cycles)))
  {
    if cycles != [] {
      PgdataLogIsChain(cfg, s, Init(cycles));
      var before := RunFrom(cfg, s, Init(cycles));
      PgdataCycle(cfg, before, Last(cycles));
      if PgdataResizes(cfg, before, Last(cycles)) && PgdataLands(Last(cycles)) {
        ChainExtends(cfg.pgdata, s.pgdata.bytes, PgdataLog(cfg, s, Init(cycles)), NextGi(cfg.pgdata, before.pgdata));
      }
    }
  }

  lemma {:induction false} WalLogIsChain(cfg: Config, s: State, cycles: seq<Cycle>)
    requires s.wal.Some? && s.wal.value.Bytes?
    ensures IsChain(cfg.wal, s.wal.value.bytes, WalLog(cfg, s, cycles))
    ensures RunFrom(cfg, s, cycles).wal == Some(Bytes(SizeAfter(s.wal.value.bytes, WalLog(cfg, s, cycles))))
  {
    if cycles != [] {
      WalLogIsChain(cfg, s, Init(cycles));
      var before := RunFrom(cfg, s, Init(cycles));
      WalCycle(cfg, before, Last(cycles));
      if WalResizes(cfg, before, Last(cycles)) && WalLands(Last(cycles)) {
        ChainExtends(cfg.wal, s.wal.value.bytes, WalLog(cfg, s, Init(cycles)), NextGi(cfg.wal, before.wal.value));
      }
    }
  }

  /** A cluster without walStorage, or with a size nobody can read, never has its WAL written. */
  lemma {:induction false} NoWalNoWrites(cfg: Config, s: State, cycles: seq<Cycle>)
    requires !WalSize(s.wal).Bytes?
    ensures WalLog(cfg, s, cycles) == [] && RunFrom(cfg, s, cycles).wal == s.wal
  {
    if cycles != [] {
      NoWalNoWrites(cfg, s, Init(cycles));
    }
  }

  /** The sizes written climb by at least a GiB each, to the maximum at most. */
  lemma {:induction false} ChainClimbs(v: VolumeConfig, start: int, log: seq<Growth>)
    requires start > 0 && IsChain(v, start, log)
    ensures forall i :: 0 <= i < |log| ==> CeilGi(start) + i < log[i].toGi <= v.maxSizeGi
    ensures forall i :: 0 < i < |log| ==> log[i - 1].toGi < log[i].toGi
    ensures SizeAfter(start, log) >= start
    ensures log != [] ==> SizeAfter(start, log) > start
  {
    if log != [] {
      var earlier := Init(log);
      ChainClimbs(v, start, earlier);
      var last := Last(log);
      NewSizeGrows(last.from, v.stepPercent, v.maxSizeGi);
      if earlier != [] {
        var previous := earlier[|earlier| - 1].toGi;
        assert CeilGi(start) + (|earlier| - 1) < previous;
        assert CeilGi(start) >= 1;
        CeilGiExact(previous);
        assert last.from == previous * GIB && CeilGi(last.from) == previous;
      }
      assert CeilGi(start) + |earlier| < last.toGi <= v.maxSizeGi;
      assert forall i :: 0 <= i < |earlier| ==> log[i] == earlier[i];
    }
  }

  /** Finitely many: at most as many writes as there are whole GiB between the start and the maximum, and none
      at all from a start that fills the maximum or exceeds it. */
  lemma {:induction false} ChainIsFinite(v: VolumeConfig, start: int, log: seq<Growth>)
    requires start > 0 && IsChain(v, start, log)
    ensures |log| <= MaxInt(v.maxSizeGi - CeilGi(start), 0)
    ensures CeilGi(start) >= v.maxSizeGi ==> log == []
  {
    ChainClimbs(v, start, log);
    if log != [] {
      assert CeilGi(start) + (|log| - 1) < log[|log| - 1].toGi <= v.maxSizeGi;
    }
  }

  function Power(base: real, k: nat): real {
    if k == 0 then 1.0 else Power(base, k - 1) * base
  }

  /** The size k full steps take a volume to. */
  function Compounded(start: int, stepPercent: real, k: nat): real {
    start as real * Power(1.0 + stepPercent / 100.0, k)
  }

  lemma {:induction false} MinBelow(a: real, b: real)
    ensures MinReal(a, b) <= a && MinReal(a, b) <= b
    ensures MinReal(a, b) == a || MinReal(a, b) == b
  {
  }

  /** Geometric growth: k writes reach at least the maximum or k full steps. */
  lemma {:induction false} ChainIsGeometric(v: VolumeConfig, start: int, log: seq<Growth>)
    requires v.Valid() && start > 0 && IsChain(v, start, log)
    ensures SizeAfter(start, log) as real
         >= MinReal((v.maxSizeGi * GIB) as real, Compounded(start, v.stepPercent, |log|))
  {
    MinBelow((v.maxSizeGi * GIB) as real, Compounded(start, v.stepPercent, |log|));
    if log == [] {
      assert Compounded(start, v.stepPercent, 0) == start as real;
    } else {
      var earlier := Init(log);
      ChainIsGeometric(v, start, earlier);
      ChainClimbs(v, start, earlier);
      var from := SizeAfter(start, earlier);
      NewSizeGrows(from, v.stepPercent, v.maxSizeGi);
      if Last(log).toGi == v.maxSizeGi {
        assert SizeAfter(start, log) == v.maxSizeGi * GIB;
      } else {
        assert CeilGi(from) * GIB < v.maxSizeGi * GIB;
        MinBelow((v.maxSizeGi * GIB) as real, Compounded(start, v.stepPercent, |earlier|));
        StepCompounds(from, start, v.stepPercent, |earlier|);
      }
    }
  }

  lemma {:induction false} StepCompounds(from: int, start: int, stepPercent: real, k: nat)
    requires from as real >= Compounded(start, stepPercent, k) && stepPercent > 0.0
    ensures Stepped(from, stepPercent) >= Compounded(start, stepPercent, k + 1)
  {
    var factor := 1.0 + stepPercent / 100.0;
    var (size, base, power) := (from as real, start as real, Power(factor, k));
    RealAlgebra.ProductNonNegative(size - base * power, factor);
    assert (size - base * power) * factor == size * factor - base * (power * factor);
  }

  /** What rounding up to whole GiB can add to the growth in all, in bytes: two GiB for each step, discounted. */
  function RoundingSlack(stepPercent: real): real
    requires stepPercent > 0.0
  {
    (2 * GIB) as real / (stepPercent / 100.0)
  }

  /** With that slack the size is at most k full steps up from the start. */
  ghost predicate AtMostSteps(start: int, size: int, stepPercent: real, k: nat)
    requires stepPercent > 0.0
  {
    var slack := RoundingSlack(stepPercent);
    size as real + slack <= (start as real + slack) * Power(1.0 + stepPercent / 100.0, k)
  }

  /** And no faster than geometric: k writes take the volume, with the slack, at most k full steps up. */
  lemma {:induction false} ChainGrowsNoFaster(v: VolumeConfig, start: int, log: seq<Growth>)
    requires v.Valid() && start > 0 && IsChain(v, start, log)
    ensures AtMostSteps(start, SizeAfter(start, log), v.stepPercent, |log|)
  {
    if log != [] {
      var earlier := Init(log);
      ChainGrowsNoFaster(v, start, earlier);
      ChainClimbs(v, start, earlier);
      var from := SizeAfter(start, earlier);
      WriteBound(from, v.stepPercent, v.maxSizeGi, Last(log).toGi);
      OneMoreStep(start, from, SizeAfter(start, log), v.stepPercent, |earlier|);
    }
  }

  lemma {:induction false} OneMoreStep(start: int, from: int, to: int, stepPercent: real, k: nat)
    requires stepPercent > 0.0 && AtMostSteps(start, from, stepPercent, k)
    requires to as real <= Stepped(from, stepPercent) + (2 * GIB) as real
    ensures AtMostSteps(start, to, stepPercent, k + 1)
  {
    SlackStep(from as real, to as real, stepPercent / 100.0, RoundingSlack(stepPercent), start as real,
              Power(1.0 + stepPercent / 100.0, k));
  }

  lemma {:induction false} WriteBound(from: int, stepPercent: real, maxSizeGi: int, toGi: int)
    requires from > 0 && stepPercent > 0.0 && NewSize(Bytes(from), stepPercent, maxSizeGi) == Ok(Some(toGi))
    ensures (toGi * GIB) as real <= Stepped(from, stepPercent) + (2 * GIB) as real
  {
    NewSizeGrows(from, stepPercent, maxSizeGi);
    var gain := RealAlgebra.SameSign(from as real, stepPercent / 100.0);
    assert Stepped(from, stepPercent) == from as real + gain;
    assert (toGi * GIB) as real == ((toGi - 1) * GIB) as real + GIB as real;
    assert toGi == CeilGi(from) + 1 ==> toGi * GIB < from + 2 * GIB;
  }

  lemma {:induction false} SlackStep(from: real, to: real, share: real, slack: real, start: real, power: real)
    requires share > 0.0 && slack == (2 * GIB) as real / share
    requires to <= from * (1.0 + share) + (2 * GIB) as real && from + slack <= (start + slack) * power
    ensures to + slack <= (start + slack) * (power * (1.0 + share))
  {
    assert slack * share == (2 * GIB) as real;
    var room := (start + slack) * power - (from + slack);
    RealAlgebra.ProductNonNegative(room, 1.0 + share);
    assert room * (1.0 + share) == (start + slack) * (power * (1.0 + share)) - (from + slack) * (1.0 + share);
    assert (from + slack) * (1.0 + share) == from * (1.0 + share) + slack + slack * share;
  }

  /** The growth results for both volumes of a running controller. */
  lemma {:induction false} VolumesGrow(cfg: Config, s: State, cycles: seq<Cycle>)
    requires cfg.Valid()
    ensures s.pgdata.Bytes? && s.pgdata.bytes > 0 ==>
              Grown(cfg.pgdata, s.pgdata.bytes, PgdataLog(cfg, s, cycles), RunFrom(cfg, s, cycles).pgdata)
    ensures cfg.walEnabled && s.wal.Some? && s.wal.value.Bytes? && s.wal.value.bytes > 0 ==>
              RunFrom(cfg, s, cycles).wal.Some? &&
              Grown(cfg.wal, s.wal.value.bytes, WalLog(cfg, s, cycles), RunFrom(cfg, s, cycles).wal.value)
  {
    if s.pgdata.Bytes? && s.pgdata.bytes > 0 {
      PgdataLogIsChain(cfg, s, cycles);
      ChainGrows(cfg.pgdata, s.pgdata.bytes, PgdataLog(cfg, s, cycles));
    }
    if cfg.walEnabled && s.wal.Some? && s.wal.value.Bytes? && s.wal.value.bytes > 0 {
      WalLogIsChain(cfg, s, cycles);
      ChainGrows(cfg.wal, s.wal.value.bytes, WalLog(cfg, s, cycles));
    }
  }

  /** Written sizes strictly increase within the maximum, there are boundedly many, and they grow geometrically. */
  ghost predicate Grown(v: VolumeConfig, start: int, log: seq<Growth>, final: Quantity)
    requires v.stepPercent > 0.0
  {
    && (forall i :: 0 <= i < |log| ==> log[i].from < log[i].toGi * GIB && log[i].toGi <= v.maxSizeGi)
    && (forall i :: 0 <= i < |log| ==> log[i].from == (if i == 0 then start else log[i - 1].toGi * GIB))
    && |log| <= MaxInt(v.maxSizeGi - CeilGi(start), 0)
    && final == Bytes(SizeAfter(start, log))
    && SizeAfter(start, log) as real
       >= MinReal((v.maxSizeGi * GIB) as real, Compounded(start, v.stepPercent, |log|))
    && AtMostSteps(start, SizeAfter(start, log), v.stepPercent, |log|)
  }

  lemma {:induction false} ChainGrows(v: VolumeConfig, start: int, log: seq<Growth>)
    requires v.Valid() && start > 0 && IsChain(v, start, log)
    ensures Grown(v, start, log, Bytes(SizeAfter(start, log)))
  {
    ChainClimbs(v, start, log);
    ChainIsFinite(v, start, log);
    ChainIsGeometric(v, start, log);
    ChainGrowsNoFaster(v, start, log);
    forall i | 0 <= i < |log|
      ensures log[i].from == (if i == 0 then start else log[i - 1].toGi * GIB) && log[i].from < log[i].toGi * GIB
    {
      ChainLink(v, start, log, i);
    }
  }

  lemma {:induction false} ChainLink(v: VolumeConfig, start: int, log: seq<Growth>, i: nat)
    requires IsChain(v, start, log) && i < |log|
    ensures log[i].from == (if i == 0 then start else log[i - 1].toGi * GIB)
    ensures log[i].from < log[i].toGi * GIB
  {
    if i < |log| - 1 {
      ChainLink(v, start, Init(log), i);
    } else {
      NewSizeGrows(Last(log).from, v.stepPercent, v.maxSizeGi);
    }
  }

  // ---- One usage-triggered expansion in flight -------------------------------------------------

  lemma {:induction false} WalStaysInFlight(cfg: Config, s: State, cycles: seq<Cycle>, was: int, k: nat, j: nat)
    requires cfg.Valid() && k <= j <= |cycles|
    requires InFlightOrFull(was, WalSize(Before(cfg, s, cycles, k).wal), cfg.wal.maxSizeGi)
    requires forall i :: k <= i < j ==> WithinOld(cycles[i].metrics.walCapacityBytes, was)
    ensures Before(cfg, s, cycles, j).wal == Before(cfg, s, cycles, k).wal
  {
    if k < j {
      WalStaysInFlight(cfg, s, cycles, was, k, j - 1);
      BeforeNext(cfg, s, cycles, j - 1);
      var before := Before(cfg, s, cycles, j - 1);
      OnlyPreemptiveInFlight(cycles[j - 1].metrics, WalSize(before.wal), cfg, before.lastWalResizeAt,
                             cycles[j - 1].walDecidedAt, was);
    }
  }

  /** A resize of this volume leaves it in flight or full, from any size. */
  ghost predicate Guarded(v: VolumeConfig) {
    v.stepPercent > 5.0 || v.maxSizeGi <= 21
  }

  /** Cycle k writes the WAL, and up to cycle j the reported capacity is positive and at most the size it replaced. */
  ghost predicate WalWriteUnderWay(cfg: Config, s: State, cycles: seq<Cycle>, k: nat, j: nat) {
    && k < j < |cycles|
    && WalResizes(cfg, Before(cfg, s, cycles, k), cycles[k]) && WalLands(cycles[k])
    && WalSize(Before(cfg, s, cycles, k).wal).bytes > 0
    && forall i :: k < i <= j ==>
         WithinOld(cycles[i].metrics.walCapacityBytes, WalSize(Before(cfg, s, cycles, k).wal).bytes)
  }

  /** Meanwhile no cycle resizes the WAL again: at most one expansion is in flight, capped or not. */
  lemma {:induction false} OneWalExpansionInFlight(cfg: Config, s: State, cycles: seq<Cycle>, k: nat, j: nat)
    requires cfg.Valid() && Guarded(cfg.wal) && WalWriteUnderWay(cfg, s, cycles, k, j)
    ensures !WalResizes(cfg, Before(cfg, s, cycles, j), cycles[j])
  {
    var before := Before(cfg, s, cycles, k);
    var was := WalSize(before.wal).bytes;
    BeforeNext(cfg, s, cycles, k);
    WalCycle(cfg, before, cycles[k]);
    StepGuardedExactly(cfg.wal.stepPercent, cfg.wal.maxSizeGi);
    assert NewSize(Bytes(was), cfg.wal.stepPercent, cfg.wal.maxSizeGi)
        == Ok(Some(NextGi(cfg.wal, WalSize(before.wal))));
    WalStaysInFlight(cfg, s, cycles, was, k + 1, j);
    var later := Before(cfg, s, cycles, j);
    OnlyPreemptiveInFlight(cycles[j].metrics, WalSize(later.wal), cfg, later.lastWalResizeAt,
                           cycles[j].walDecidedAt, was);
  }

  ghost predicate OneWalAtATime(cfg: Config) {
    forall s: State, cycles: seq<Cycle>, k: nat, j: nat :: WalWriteUnderWay(cfg, s, cycles, k, j) ==>
      !WalResizes(cfg, Before(cfg, s, cycles, j), cycles[j])
  }

  /** At most one WAL expansion is in flight in every run exactly when the step exceeds 5% or the maximum is at most
      21 GiB. */
  lemma {:induction false} OneWalAtATimeExactly(cfg: Config)
    requires cfg.Valid() && cfg.walEnabled
    ensures OneWalAtATime(cfg) <==> Guarded(cfg.wal)
  {
    if Guarded(cfg.wal) {
      forall s: State, cycles: seq<Cycle>, k: nat, j: nat | WalWriteUnderWay(cfg, s, cycles, k, j)
        ensures !WalResizes(cfg, Before(cfg, s, cycles, j), cycles[j])
      {
        OneWalExpansionInFlight(cfg, s, cycles, k, j);
      }
    } else {
      var s := State(GiSize(20), Some(GiSize(20)), None, None);
      var c := CriticalCycle();
      TwoCycles(cfg, s, c);
      TwentyGiIsNotInFlight(cfg.wal.stepPercent, cfg.wal.maxSizeGi);
      StillCriticalResizes(GiSize(20), cfg, None, 0, 20 * GIB);
      CeilGiExact(20);
      WalCycle(cfg, s, c);
      var next := AfterCycle(cfg, s, c);
      assert next.wal == Some(GiSize(21));
      StillCriticalResizes(GiSize(21), cfg, next.lastWalResizeAt, 0, 20 * GIB);
      assert WalWriteUnderWay(cfg, s, [c, c], 0, 1);
    }
  }

  /** Both volumes critical under a reported 20 GiB, and every write lands. */
  function CriticalCycle(): Cycle {
    Cycle(true, StillCritical(20 * GIB), 0, true, Delivered, 0, 0, true, Delivered, 0)
  }

  lemma {:induction false} TwoCycles(cfg: Config, s: State, c: Cycle)
    ensures Before(cfg, s, [c, c], 0) == s && Before(cfg, s, [c, c], 1) == AfterCycle(cfg, s, c)
  {
    assert [c, c][..0] == [];
    BeforeNext(cfg, s, [c, c], 0);
  }

  lemma {:induction false} PgdataStaysInFlight(cfg: Config, s: State, cycles: seq<Cycle>, was: int, k: nat, j: nat)
    requires cfg.Valid() && k <= j <= |cycles|
    requires InFlightOrFull(was, Before(cfg, s, cycles, k).pgdata, cfg.pgdata.maxSizeGi)
    ensures InFlightOrFull(was, Before(cfg, s, cycles, j).pgdata, cfg.pgdata.maxSizeGi)
  {
    if k < j {
      PgdataStaysInFlight(cfg, s, cycles, was, k, j - 1);
      BeforeNext(cfg, s, cycles, j - 1);
      var before := Before(cfg, s, cycles, j - 1);
      NewSizeGrows(before.pgdata.bytes, cfg.pgdata.stepPercent, cfg.pgdata.maxSizeGi);
    }
  }

  /** Cycle k writes pgdata, and at cycle j the reported capacity is positive and at most the size it replaced. */
  ghost predicate PgdataWriteUnderWay(cfg: Config, s: State, cycles: seq<Cycle>, k: nat, j: nat) {
    && k < j < |cycles|
    && PgdataResizes(cfg, Before(cfg, s, cycles, k), cycles[k]) && PgdataLands(cycles[k])
    && Before(cfg, s, cycles, k).pgdata.bytes > 0
    && WithinOld(cycles[j].metrics.pgdataCapacityBytes, Before(cfg, s, cycles, k).pgdata.bytes)
  }

  /** Cycle j does not resize pgdata, or only for a projected exhaustion and outside the cooldown. */
  ghost predicate OnlyPreemptive(cfg: Config, s: State, c: Cycle) {
    PgdataResizes(cfg, s, c) ==>
      && PGDataTrigger(c.metrics, s.pgdata, cfg) == Some(Preemptive)
      && !InCooldown(s.lastPgdataResizeAt, cfg.pgdata.cooldown, c.pgdataDecidedAt)
  }

  /** The same for pgdata, except that a projected exhaustion may still expand it, outside the cooldown. */
  lemma {:induction false} OnePgdataExpansionInFlight(cfg: Config, s: State, cycles: seq<Cycle>, k: nat, j: nat)
    requires cfg.Valid() && Guarded(cfg.pgdata) && PgdataWriteUnderWay(cfg, s, cycles, k, j)
    ensures OnlyPreemptive(cfg, Before(cfg, s, cycles, j), cycles[j])
  {
    var before := Before(cfg, s, cycles, k);
    var was := before.pgdata.bytes;
    BeforeNext(cfg, s, cycles, k);
    PgdataCycle(cfg, before, cycles[k]);
    StepGuardedExactly(cfg.pgdata.stepPercent, cfg.pgdata.maxSizeGi);
    assert NewSize(Bytes(was), cfg.pgdata.stepPercent, cfg.pgdata.maxSizeGi)
        == Ok(Some(NextGi(cfg.pgdata, before.pgdata)));
    PgdataStaysInFlight(cfg, s, cycles, was, k + 1, j);
    var later := Before(cfg, s, cycles, j);
    OnlyPreemptiveInFlight(cycles[j].metrics, later.pgdata, cfg, later.lastPgdataResizeAt,
                           cycles[j].pgdataDecidedAt, was);
  }

  ghost predicate OnePgdataAtATime(cfg: Config) {
    forall s: State, cycles: seq<Cycle>, k: nat, j: nat :: PgdataWriteUnderWay(cfg, s, cycles, k, j) ==>
      OnlyPreemptive(cfg, Before(cfg, s, cycles, j), cycles[j])
  }

  /** At most one usage-triggered pgdata expansion is in flight in every run under exactly the same condition. */
  lemma {:induction false} OnePgdataAtATimeExactly(cfg: Config)
    requires cfg.Valid()
    ensures OnePgdataAtATime(cfg) <==> Guarded(cfg.pgdata)
  {
    if Guarded(cfg.pgdata) {
      forall s: State, cycles: seq<Cycle>, k: nat, j: nat | PgdataWriteUnderWay(cfg, s, cycles, k, j)
        ensures OnlyPreemptive(cfg, Before(cfg, s, cycles, j), cycles[j])
      {
        OnePgdataExpansionInFlight(cfg, s, cycles, k, j);
      }
    } else {
      var s := State(GiSize(20), None, None, None);
      var c := CriticalCycle();
      TwoCycles(cfg, s, c);
      TwentyGiIsNotInFlight(cfg.pgdata.stepPercent, cfg.pgdata.maxSizeGi);
      StillCriticalResizes(GiSize(20), cfg, None, 0, 20 * GIB);
      CeilGiExact(20);
      PgdataCycle(cfg, s, c);
      var next := AfterCycle(cfg, s, c);
      assert next.pgdata == GiSize(21);
      StillCriticalResizes(GiSize(21), cfg, next.lastPgdataResizeAt, 0, 20 * GIB);
      assert PgdataWriteUnderWay(cfg, s, [c, c], 0, 1);
    }
  }

  // ---- Spacing of the pgdata writes -------------------------------------------------------------

  ghost predicate Clocked(cycles: seq<Cycle>) {
    && (forall i :: 0 <= i < |cycles| ==> cycles[i].pgdataDecidedAt <= cycles[i].pgdataDoneAt)
    && (forall i, j :: 0 <= i < j < |cycles| ==> cycles[i].pgdataDoneAt <= cycles[j].pgdataDecidedAt)
  }

  /** An acknowledged pgdata write: when the source notes it, why it was made, and whether an expansion was then
      still propagating. */
  datatype Ack = Ack(at: int, trigger: Option<Trigger>, propagating: bool)

  ghost function PgdataAcks(cfg: Config, s: State, cycles: seq<Cycle>): seq<Ack> {
    if cycles == [] then []
    else
      var before := RunFrom(cfg, s, Init(cycles));
      var c := Last(cycles);
      if PgdataResizes(cfg, before, c) && PgdataAcknowledged(c)
      then PgdataAcks(cfg, s, Init(cycles))
           + [Ack(c.pgdataDoneAt, PGDataTrigger(c.metrics, before.pgdata, cfg),
                  IsPropagating(c.metrics.pgdataCapacityBytes, before.pgdata))]
      else PgdataAcks(cfg, s, Init(cycles))
  }

  /** Of two consecutive acknowledged pgdata writes closer than the cooldown, the second is critical and was not made
      while an expansion was propagating. */
  lemma {:induction false} CloseWritesAreCritical(cfg: Config, s: State, cycles: seq<Cycle>)
    requires cfg.Valid() && s.lastPgdataResizeAt.None? && Clocked(cycles)
    ensures var acks := PgdataAcks(cfg, s, cycles);
            && (forall i :: 0 < i < |acks| && acks[i].at - acks[i - 1].at < cfg.pgdata.cooldown ==>
                  acks[i].trigger == Some(Critical) && !acks[i].propagating)
            && RunFrom(cfg, s, cycles).lastPgdataResizeAt == (if acks == [] then None else Some(Last(acks).at))
  {
    if cycles != [] {
      CloseWritesAreCritical(cfg, s, Init(cycles));
      assert Last(cycles) == cycles[|cycles| - 1];
    }
  }

  /** The next pgdata resize is in its cooldown exactly when the last acknowledged write lies less than that back. */
  lemma {:induction false} CooldownExactly(cfg: Config, s: State, cycles: seq<Cycle>, now: int)
    requires cfg.Valid() && s.lastPgdataResizeAt.None? && Clocked(cycles)
    ensures var acks := PgdataAcks(cfg, s, cycles);
            InCooldown(RunFrom(cfg, s, cycles).lastPgdataResizeAt, cfg.pgdata.cooldown, now)
            <==> acks != [] && now < Last(acks).at + cfg.pgdata.cooldown
  {
    CloseWritesAreCritical(cfg, s, cycles);
  }

  // ---- Spacing of the WAL writes -----------------------------------------------------------------

  ghost predicate WalClocked(cycles: seq<Cycle>) {
    && (forall i :: 0 <= i < |cycles| ==> cycles[i].walDecidedAt <= cycles[i].walDoneAt)
    && (forall i, j :: 0 <= i < j < |cycles| ==> cycles[i].walDoneAt <= cycles[j].walDecidedAt)
  }

  /** An acknowledged WAL write: when the source notes it, and whether the usage was critical. */
  datatype WalAck = WalAck(at: int, critical: bool)

  ghost function WalAcks(cfg: Config, s: State, cycles: seq<Cycle>): seq<WalAck> {
    if cycles == [] then []
    else
      var (before, c) := (RunFrom(cfg, s, Init(cycles)), Last(cycles));
      if WalResizes(cfg, before, c) && WalAcknowledged(c)
      then WalAcks(cfg, s, Init(cycles))
           + [WalAck(c.walDoneAt, Usage(c.metrics.walUsageRatio).AtLeast(cfg.wal.criticalThresholdPercent))]
      else WalAcks(cfg, s, Init(cycles))
  }

  /** Of two consecutive acknowledged WAL writes closer than the cooldown the second is critical. */
  lemma {:induction false} CloseWalWritesAreCritical(cfg: Config, s: State, cycles: seq<Cycle>)
    requires cfg.Valid() && s.lastWalResizeAt.None? && WalClocked(cycles)
    ensures var acks := WalAcks(cfg, s, cycles);
            && (forall i :: 0 < i < |acks| && acks[i].at - acks[i - 1].at < cfg.wal.cooldown ==> acks[i].critical)
            && RunFrom(cfg, s, cycles).lastWalResizeAt == (if acks == [] then None else Some(Last(acks).at))
  {
    if cycles != [] {
      CloseWalWritesAreCritical(cfg, s, Init(cycles));
      assert Last(cycles) == cycles[|cycles| - 1];
    }
  }

  lemma {:induction false} WalCooldownExactly(cfg: Config, s: State, cycles: seq<Cycle>, now: int)
    requires cfg.Valid() && s.lastWalResizeAt.None? && WalClocked(cycles)
    ensures var acks := WalAcks(cfg, s, cycles);
            InCooldown(RunFrom(cfg, s, cycles).lastWalResizeAt, cfg.wal.cooldown, now)
            <==> acks != [] && now < Last(acks).at + cfg.wal.cooldown
  {
    CloseWalWritesAreCritical(cfg, s, cycles);
  }
}
