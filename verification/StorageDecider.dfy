/** The decision rules of the storage-scaling controller. */
module StorageDecider {
  import opened Basics
  import opened ClusterApi
  import RealAlgebra

  /** A metric as the source holds it: a float that may be missing (NaN) or infinite. */
  datatype Float = NaN | PosInf | NegInf | Fin(value: real) {
    predicate AtLeast(x: real) {
      PosInf? || (Fin? && value >= x)
    }

    predicate Above(x: real) {
      PosInf? || (Fin? && value > x)
    }

    predicate Below(x: real) {
      NegInf? || (Fin? && value < x)
    }

    function Times(x: real): Float
      requires x > 0.0
    {
      if Fin? then Fin(value * x) else this
    }
  }

  datatype Metrics = Metrics(
    pgdataUsagePercent: Float,
    walUsageRatio: Float,
    walArchivePending: Float,
    replicationLagSeconds: Float,
    pgdataTimeToFullSeconds: Float,
    pgdataCapacityBytes: Float,
    walCapacityBytes: Float)

  datatype VolumeConfig = VolumeConfig(
    scaleUpThresholdPercent: real,
    criticalThresholdPercent: real,
    stepPercent: real,
    maxSizeGi: int,
    cooldown: int) {

    /** What `validateConfig` demands of a volume. */
    ghost predicate Valid() {
      0.0 < scaleUpThresholdPercent < 100.0 && criticalThresholdPercent > scaleUpThresholdPercent
      && stepPercent > 0.0 && maxSizeGi > 0
    }
  }

  datatype Guards = Guards(walArchivePendingLimit: int, replicationLagLimit: real)

  datatype Config = Config(pgdata: VolumeConfig, preemptiveHours: real, walEnabled: bool, wal: VolumeConfig,
                           guards: Guards) {
    ghost predicate Valid() {
      pgdata.Valid() && (walEnabled ==> wal.Valid())
    }
  }

  datatype Trigger = Reactive | Critical | Preemptive

  datatype SkipReason =
    | Unavailable | Disabled | NoVolume | GuardBlocked | Propagating | BelowThreshold | CoolingDown | SizeError
    | AtMaximum

  datatype Decision = Skip(reason: SkipReason) | Resize(newGi: int, trigger: Trigger)

  // ---- Sizes --------------------------------------------------------------------------

  const GIB: int := 1073741824

  /** The size string "%dGi". */
  function GiSize(gi: int): Quantity {
    Bytes(gi * GIB)
  }

  /** Bytes rounded up to GiB with the source's truncating division. */
  function CeilGi(bytes: int): (gi: int)
    ensures gi * GIB >= bytes
    ensures bytes > 0 ==> (gi - 1) * GIB < bytes
  {
    TruncDiv(bytes + GIB - 1, GIB)
  }

  function Stepped(bytes: int, stepPercent: real): real {
    bytes as real * (1.0 + stepPercent / 100.0)
  }

  /** Err when the size cannot be read, None when the volume is at its maximum already. */
  function NewSize(current: Quantity, stepPercent: real, maxSizeGi: int): Result<Option<int>> {
    if !current.Bytes? then Err
    else if CeilGi(current.bytes) >= maxSizeGi then Ok(None)
    else Ok(Some(MaxInt(MinInt(Ceil(Stepped(current.bytes, stepPercent) / GIB as real), maxSizeGi),
                        CeilGi(current.bytes) + 1)))
  }

  method ComputeNewSize(current: Quantity, stepPercent: real, maxSizeGi: int) returns (r: Result<Option<int>>)
    ensures r == NewSize(current, stepPercent, maxSizeGi)
  {
    if !current.Bytes? {
      return Err;
    }
    var currentGi := CeilGi(current.bytes);
    if currentGi >= maxSizeGi {
      return Ok(None);
    }
    var newGi := Ceil(Stepped(current.bytes, stepPercent) / GIB as real);
    if newGi > maxSizeGi {
      newGi := maxSizeGi;
    }
    if newGi <= currentGi {
      newGi := currentGi + 1;
    }
    return Ok(Some(newGi));
  }

  /** A new size is a whole number of GiB strictly above the current one, within the maximum, and at least a full step
      up unless the maximum cuts it short; it is the least such size, a GiB less being either no growth or less than a
      step. There is none exactly when the volume already fills its maximum. */
  lemma {:induction false} NewSizeGrows(bytes: int, stepPercent: real, maxSizeGi: int)
    ensures var r := NewSize(Bytes(bytes), stepPercent, maxSizeGi);
            && r.Ok?
            && (r.value == None <==> CeilGi(bytes) >= maxSizeGi)
            && (r.value.Some? ==>
                  && CeilGi(bytes) < r.value.value <= maxSizeGi
                  && bytes < r.value.value * GIB
                  && (r.value.value == maxSizeGi || (r.value.value * GIB) as real >= Stepped(bytes, stepPercent))
                  && (r.value.value == CeilGi(bytes) + 1
                      || ((r.value.value - 1) * GIB) as real < Stepped(bytes, stepPercent)))
  {
    var wanted := Ceil(Stepped(bytes, stepPercent) / GIB as real);
    WholeGi(Stepped(bytes, stepPercent), wanted);
    assert (CeilGi(bytes) + 1) * GIB == CeilGi(bytes) * GIB + GIB;
  }

  lemma {:induction false} WholeGi(bytes: real, gi: int)
    requires gi == Ceil(bytes / GIB as real)
    ensures ((gi - 1) * GIB) as real < bytes <= (gi * GIB) as real
  {
    var q := bytes / GIB as real;
    assert q * GIB as real == bytes;
    assert (gi * GIB) as real == gi as real * GIB as real;
    assert ((gi - 1) * GIB) as real == gi as real * GIB as real - GIB as real;
  }

  lemma {:induction false} CeilGiExact(gi: int)
    requires gi > 0
    ensures CeilGi(gi * GIB) == gi
  {
  }

  // ---- Conditions ------------------------------------------------------------------------

  predicate PreemptiveNeeded(timeToFullSeconds: Float, thresholdHours: real) {
    thresholdHours > 0.0 && timeToFullSeconds.Above(0.0) && timeToFullSeconds.Below(thresholdHours * 3600.0)
  }

  predicate GuardBlocks(m: Metrics, guards: Guards) {
    || (guards.walArchivePendingLimit > 0 && m.walArchivePending.Above(guards.walArchivePendingLimit as real))
    || (guards.replicationLagLimit > 0.0 && m.replicationLagSeconds.Above(guards.replicationLagLimit))
  }

  /** The spec is more than 5% above the capacity the kubelet reports: the last expansion has not arrived. */
  predicate IsPropagating(capacityBytes: Float, current: Quantity) {
    capacityBytes.Above(0.0) && current.Bytes? && capacityBytes.Fin?
    && current.bytes as real > capacityBytes.value * 1.05
  }

  /** Only a positive, finite capacity and a readable size count, and then more than 105% of the one against the
      other. */
  lemma {:induction false} PropagatingExactly(capacity: Float, size: Quantity)
    ensures IsPropagating(capacity, size)
       <==> size.Bytes? && capacity.Fin? && capacity.value > 0.0
            && 100.0 * size.bytes as real > 105.0 * capacity.value
  {
  }

  predicate InCooldown(lastResizeAt: Option<int>, cooldown: int, now: int) {
    lastResizeAt.Some? && now - lastResizeAt.value < cooldown
  }

  method CheckSafetyGuards(m: Metrics, guards: Guards) returns (block: bool)
    ensures block <==> GuardBlocks(m, guards)
  {
    if guards.walArchivePendingLimit > 0 && !m.walArchivePending.NaN? {
      if m.walArchivePending.Above(guards.walArchivePendingLimit as real) {
        return true;
      }
    }
    if guards.replicationLagLimit > 0.0 && !m.replicationLagSeconds.NaN? {
      if m.replicationLagSeconds.Above(guards.replicationLagLimit) {
        return true;
      }
    }
    return false;
  }

  /** A guard's limit that is not positive is off; otherwise it lets everything through up to the limit, and a metric
      that is missing. */
  ghost predicate LetsThrough(value: Float, limit: real) {
    limit <= 0.0 || value.NaN? || value.NegInf? || (value.Fin? && value.value <= limit)
  }

  lemma {:induction false} GuardsLetThroughExactly(m: Metrics, guards: Guards)
    ensures !GuardBlocks(m, guards)
       <==> && LetsThrough(m.walArchivePending, guards.walArchivePendingLimit as real)
            && LetsThrough(m.replicationLagSeconds, guards.replicationLagLimit)
  {
  }

  // ---- When exactly each volume is resized -----------------------------------------------------

  function Usage(ratio: Float): Float {
    ratio.Times(100.0)
  }

  /** The trigger behind a pgdata resize, if the metrics give one: while an expansion is propagating only the
      time-to-full counts, otherwise the most urgent of the three. */
  function PGDataTrigger(m: Metrics, size: Quantity, cfg: Config): Option<Trigger> {
    var propagating := IsPropagating(m.pgdataCapacityBytes, size);
    var preemptive := PreemptiveNeeded(m.pgdataTimeToFullSeconds, cfg.preemptiveHours);
    if !propagating && m.pgdataUsagePercent.AtLeast(cfg.pgdata.criticalThresholdPercent) then Some(Critical)
    else if preemptive then Some(Preemptive)
    else if !propagating && m.pgdataUsagePercent.AtLeast(cfg.pgdata.scaleUpThresholdPercent) then Some(Reactive)
    else None
  }

  ghost predicate PGDataResizes(m: Metrics, size: Quantity, cfg: Config, last: Option<int>, now: int) {
    && !m.pgdataUsagePercent.NaN?
    && !GuardBlocks(m, cfg.guards)
    && PGDataTrigger(m, size, cfg).Some?
    && (PGDataTrigger(m, size, cfg) == Some(Critical) || !InCooldown(last, cfg.pgdata.cooldown, now))
    && size.Bytes? && CeilGi(size.bytes) < cfg.pgdata.maxSizeGi
  }

  /** A pgdata volume is left alone for the reason it is given. */
  ghost predicate PGDataReasonHolds(reason: SkipReason, m: Metrics, size: Quantity, cfg: Config, last: Option<int>,
                                    now: int) {
    match reason
    case Unavailable => m.pgdataUsagePercent.NaN?
    case GuardBlocked => GuardBlocks(m, cfg.guards)
    case Propagating => IsPropagating(m.pgdataCapacityBytes, size) && PGDataTrigger(m, size, cfg) == None
                        && m.pgdataUsagePercent.AtLeast(cfg.pgdata.scaleUpThresholdPercent)
    case BelowThreshold => PGDataTrigger(m, size, cfg) == None
                           && !m.pgdataUsagePercent.AtLeast(cfg.pgdata.scaleUpThresholdPercent)
    case CoolingDown => PGDataTrigger(m, size, cfg) in {Some(Preemptive), Some(Reactive)}
                        && InCooldown(last, cfg.pgdata.cooldown, now)
    case SizeError => !size.Bytes?
    case AtMaximum => size.Bytes? && CeilGi(size.bytes) >= cfg.pgdata.maxSizeGi
    case _ => false
  }

  /** A pgdata volume that can grow and is not guarded is resized exactly when it is critical with nothing propagating,
      or, outside the cooldown, when its exhaustion is near or it is above its threshold with nothing propagating. */
  lemma {:induction false} PGDataResizesExactly(m: Metrics, size: Quantity, cfg: Config, last: Option<int>, now: int)
    requires cfg.Valid() && size.Bytes? && CeilGi(size.bytes) < cfg.pgdata.maxSizeGi
    requires !m.pgdataUsagePercent.NaN? && !GuardBlocks(m, cfg.guards)
    ensures var free := !IsPropagating(m.pgdataCapacityBytes, size);
            var critical := free && m.pgdataUsagePercent.AtLeast(cfg.pgdata.criticalThresholdPercent);
            var above := free && m.pgdataUsagePercent.AtLeast(cfg.pgdata.scaleUpThresholdPercent);
            var preemptive := PreemptiveNeeded(m.pgdataTimeToFullSeconds, cfg.preemptiveHours);
            && (PGDataResizes(m, size, cfg, last, now)
                <==> critical || ((preemptive || above) && !InCooldown(last, cfg.pgdata.cooldown, now)))
            && (PGDataTrigger(m, size, cfg) == Some(Critical) <==> critical)
            && (PGDataTrigger(m, size, cfg) == Some(Preemptive) <==> preemptive && !critical)
            && (PGDataTrigger(m, size, cfg) == Some(Reactive) <==> above && !critical && !preemptive)
  {
  }

  /** Exhaustion is near when the time to full, in hours of sixty minutes of sixty seconds, is below the threshold. */
  lemma {:induction false} PreemptiveInHours(hours: real, thresholdHours: real)
    ensures PreemptiveNeeded(Fin(hours * 60.0 * 60.0), thresholdHours) <==> 0.0 < hours < thresholdHours
    ensures !PreemptiveNeeded(NaN, thresholdHours)
    ensures !PreemptiveNeeded(PosInf, thresholdHours) && !PreemptiveNeeded(NegInf, thresholdHours)
  {
  }

  /** The WAL's usage is the used part of its capacity in percent. */
  lemma {:induction false} UsageInPercent(used: real, capacity: real, percent: real)
    requires capacity > 0.0
    ensures Usage(Fin(used / capacity)).AtLeast(percent) <==> used * 100.0 >= percent * capacity
  {
    var q := used / capacity;
    assert q * capacity == used;
    var gap := q * 100.0 - percent;
    assert gap * capacity == used * 100.0 - percent * capacity;
    if gap >= 0.0 {
      RealAlgebra.ProductNonNegative(gap, capacity);
    } else {
      var product := RealAlgebra.SameSign(-gap, capacity);
    }
  }

  method DecidePGData(m: Metrics, size: Quantity, cfg: Config, last: Option<int>, now: int) returns (d: Decision)
    requires cfg.Valid()
    ensures d.Resize? <==> PGDataResizes(m, size, cfg, last, now)
    ensures d.Skip? ==> PGDataReasonHolds(d.reason, m, size, cfg, last, now)
    ensures d.Resize? ==>
              && Some(d.trigger) == PGDataTrigger(m, size, cfg)
              && NewSize(size, cfg.pgdata.stepPercent, cfg.pgdata.maxSizeGi) == Ok(Some(d.newGi))
  {
    var usage := m.pgdataUsagePercent;
    if usage.NaN? {
      return Skip(Unavailable);
    }
    var block := CheckSafetyGuards(m, cfg.guards);
    if block {
      return Skip(GuardBlocked);
    }
    var critical := usage.AtLeast(cfg.pgdata.criticalThresholdPercent);
    var aboveThreshold := usage.AtLeast(cfg.pgdata.scaleUpThresholdPercent);
    var preemptive := PreemptiveNeeded(m.pgdataTimeToFullSeconds, cfg.preemptiveHours);

    if IsPropagating(m.pgdataCapacityBytes, size) && (critical || aboveThreshold) {
      if !preemptive {
        return Skip(Propagating);
      }
      critical := false;
      aboveThreshold := false;
    }
    if !aboveThreshold && !preemptive {
      return Skip(BelowThreshold);
    }
    if !critical && InCooldown(last, cfg.pgdata.cooldown, now) {
      return Skip(CoolingDown);
    }
    var newSize := ComputeNewSize(size, cfg.pgdata.stepPercent, cfg.pgdata.maxSizeGi);
    if newSize.Err? {
      return Skip(SizeError);
    }
    if newSize.value.None? {
      return Skip(AtMaximum);
    }
    return Resize(newSize.value.value, if critical then Critical else if preemptive then Preemptive else Reactive);
  }

  ghost predicate WALResizes(m: Metrics, size: Quantity, cfg: Config, last: Option<int>, now: int) {
    var usage := Usage(m.walUsageRatio);
    && cfg.walEnabled && size.Bytes? && !GuardBlocks(m, cfg.guards)
    && usage.AtLeast(cfg.wal.scaleUpThresholdPercent)
    && !IsPropagating(m.walCapacityBytes, size)
    && (usage.AtLeast(cfg.wal.criticalThresholdPercent) || !InCooldown(last, cfg.wal.cooldown, now))
    && CeilGi(size.bytes) < cfg.wal.maxSizeGi
  }

  /** A WAL volume is left alone for the reason it is given. */
  ghost predicate WALReasonHolds(reason: SkipReason, m: Metrics, size: Quantity, cfg: Config, last: Option<int>,
                                 now: int) {
    var usage := Usage(m.walUsageRatio);
    match reason
    case Disabled => !cfg.walEnabled
    case NoVolume => size.Missing?
    case Unavailable => m.walUsageRatio.NaN?
    case GuardBlocked => GuardBlocks(m, cfg.guards)
    case Propagating => IsPropagating(m.walCapacityBytes, size) && usage.AtLeast(cfg.wal.scaleUpThresholdPercent)
    case BelowThreshold => !usage.AtLeast(cfg.wal.scaleUpThresholdPercent)
    case CoolingDown => usage.AtLeast(cfg.wal.scaleUpThresholdPercent)
                        && !usage.AtLeast(cfg.wal.criticalThresholdPercent) && InCooldown(last, cfg.wal.cooldown, now)
    case SizeError => !size.Bytes?
    case AtMaximum => size.Bytes? && CeilGi(size.bytes) >= cfg.wal.maxSizeGi
  }

  method DecideWAL(m: Metrics, size: Quantity, cfg: Config, last: Option<int>, now: int) returns (d: Decision)
    requires cfg.Valid()
    ensures d.Resize? <==> WALResizes(m, size, cfg, last, now)
    ensures d.Skip? ==> WALReasonHolds(d.reason, m, size, cfg, last, now)
    ensures d.Resize? ==>
              && (d.trigger == Critical <==> Usage(m.walUsageRatio).AtLeast(cfg.wal.criticalThresholdPercent))
              && (d.trigger == Critical || d.trigger == Reactive)
              && NewSize(size, cfg.wal.stepPercent, cfg.wal.maxSizeGi) == Ok(Some(d.newGi))
  {
    if !cfg.walEnabled {
      return Skip(Disabled);
    }
    if size.Missing? {
      return Skip(NoVolume);
    }
    var ratio := m.walUsageRatio;
    if ratio.NaN? {
      return Skip(Unavailable);
    }
    var usagePct := Usage(ratio);
    var block := CheckSafetyGuards(m, cfg.guards);
    if block {
      return Skip(GuardBlocked);
    }
    var critical := usagePct.AtLeast(cfg.wal.criticalThresholdPercent);
    var aboveThreshold := usagePct.AtLeast(cfg.wal.scaleUpThresholdPercent);
    if IsPropagating(m.walCapacityBytes, size) && aboveThreshold {
      return Skip(Propagating);
    }
    if !aboveThreshold {
      return Skip(BelowThreshold);
    }
    if !critical && InCooldown(last, cfg.wal.cooldown, now) {
      return Skip(CoolingDown);
    }
    var newSize := ComputeNewSize(size, cfg.wal.stepPercent, cfg.wal.maxSizeGi);
    if newSize.Err? {
      return Skip(SizeError);
    }
    if newSize.value.None? {
      return Skip(AtMaximum);
    }
    return Resize(newSize.value.value, if critical then Critical else Reactive);
  }

  // ---- One expansion in flight -------------------------------------------------------------------

  /** Nothing usage-triggered can follow: the volume is propagating against every capacity up to `was`, or full. */
  ghost predicate InFlightOrFull(was: int, size: Quantity, maxSizeGi: int) {
    size.Bytes? && (size.bytes as real > was as real * 1.05 || CeilGi(size.bytes) >= maxSizeGi)
  }

  /** A resize by a step of more than 5% ends in that condition, also when the maximum caps it. */
  lemma {:induction false} ResizeIsInFlight(was: int, stepPercent: real, maxSizeGi: int, newGi: int)
    requires was > 0 && stepPercent > 5.0 && NewSize(Bytes(was), stepPercent, maxSizeGi) == Ok(Some(newGi))
    ensures InFlightOrFull(was, GiSize(newGi), maxSizeGi)
  {
    NewSizeGrows(was, stepPercent, maxSizeGi);
    if newGi < maxSizeGi {
      StepExceeds(was, stepPercent);
    } else {
      assert CeilGi(newGi * GIB) >= newGi;
    }
  }

  lemma {:induction false} StepExceeds(bytes: int, stepPercent: real)
    requires bytes > 0 && stepPercent > 5.0
    ensures Stepped(bytes, stepPercent) > bytes as real * 1.05
  {
    var x := bytes as real;
    var extra := stepPercent / 100.0 - 0.05;
    var gain := RealAlgebra.SameSign(x, extra);
    assert x * (1.0 + stepPercent / 100.0) == x * 1.05 + x * extra;
  }

  /** In that condition, and while the reported capacity is positive and no larger than the old size, the WAL is
      never resized, and pgdata only as a preemptive trigger outside the cooldown. */
  lemma {:induction false} OnlyPreemptiveInFlight(m: Metrics, size: Quantity, cfg: Config, last: Option<int>,
                                                  now: int, was: int)
    requires cfg.Valid()
    ensures InFlightOrFull(was, size, cfg.wal.maxSizeGi) && WithinOld(m.walCapacityBytes, was)
        ==> !WALResizes(m, size, cfg, last, now)
    ensures InFlightOrFull(was, size, cfg.pgdata.maxSizeGi) && WithinOld(m.pgdataCapacityBytes, was)
            && PGDataResizes(m, size, cfg, last, now)
        ==> PGDataTrigger(m, size, cfg) == Some(Preemptive) && !InCooldown(last, cfg.pgdata.cooldown, now)
  {
  }

  ghost predicate WithinOld(capacity: Float, was: int) {
    capacity.Fin? && 0.0 < capacity.value <= was as real
  }

  // ---- When exactly the guard works --------------------------------------------------------------

  /** Whatever size it starts from, a resize leaves the volume in flight or full. */
  ghost predicate StepIsGuarded(stepPercent: real, maxSizeGi: int) {
    forall was: int, newGi: int ::
      was > 0 && NewSize(Bytes(was), stepPercent, maxSizeGi) == Ok(Some(newGi)) ==>
      InFlightOrFull(was, GiSize(newGi), maxSizeGi)
  }

  /** Under a maximum of 21 GiB a single GiB is already more than 5% of any size that leaves room below the maximum. */
  lemma {:induction false} SmallVolumeIsInFlight(was: int, stepPercent: real, maxSizeGi: int, newGi: int)
    requires was > 0 && maxSizeGi <= 21 && NewSize(Bytes(was), stepPercent, maxSizeGi) == Ok(Some(newGi))
    ensures InFlightOrFull(was, GiSize(newGi), maxSizeGi)
  {
    NewSizeGrows(was, stepPercent, maxSizeGi);
    if newGi < maxSizeGi {
      var gi := newGi - 1;
      assert CeilGi(was) <= gi <= 19 && was <= gi * GIB;
      assert 100 * (newGi * GIB) > 105 * was;
    } else {
      assert CeilGi(newGi * GIB) >= newGi;
    }
  }

  /** From 20 GiB a step of at most 5% goes to 21 GiB, which is neither in flight nor full under a larger maximum. */
  lemma {:induction false} TwentyGiIsNotInFlight(stepPercent: real, maxSizeGi: int)
    requires 0.0 < stepPercent <= 5.0 && maxSizeGi > 21
    ensures NewSize(GiSize(20), stepPercent, maxSizeGi) == Ok(Some(21))
    ensures !InFlightOrFull(20 * GIB, GiSize(21), maxSizeGi)
  {
    CeilGiExact(20);
    CeilGiExact(21);
    var wanted := Stepped(20 * GIB, stepPercent) / GIB as real;
    assert wanted == 20.0 + stepPercent / 5.0;
    CeilMonotone(wanted, 21.0);
    assert Ceil(21.0) == 21;
    assert (21 * GIB) as real == (20 * GIB) as real * 1.05;
  }

  /** So a WAL volume that is still critical is resized a second time before the first expansion arrives. */
  lemma {:induction false} SmallStepNotGuarded(m: Metrics, cfg: Config, last: Option<int>, now: int)
    requires cfg.Valid() && cfg.walEnabled && cfg.wal.stepPercent <= 5.0 && cfg.wal.maxSizeGi > 21
    requires m.walCapacityBytes == Fin((20 * GIB) as real) && !GuardBlocks(m, cfg.guards)
    requires Usage(m.walUsageRatio).AtLeast(cfg.wal.criticalThresholdPercent)
    ensures NewSize(GiSize(20), cfg.wal.stepPercent, cfg.wal.maxSizeGi) == Ok(Some(21))
    ensures WALResizes(m, GiSize(20), cfg, last, now) && WALResizes(m, GiSize(21), cfg, last, now)
  {
    TwentyGiIsNotInFlight(cfg.wal.stepPercent, cfg.wal.maxSizeGi);
    CeilGiExact(20);
    CeilGiExact(21);
    assert (20 * GIB) as real <= (20 * GIB) as real * 1.05;
    assert (21 * GIB) as real == (20 * GIB) as real * 1.05;
  }

  /** The resize itself leaves the volume protected exactly when the step exceeds 5% or the maximum is at most
      21 GiB. */
  lemma {:induction false} StepGuardedExactly(stepPercent: real, maxSizeGi: int)
    requires stepPercent > 0.0
    ensures StepIsGuarded(stepPercent, maxSizeGi) <==> stepPercent > 5.0 || maxSizeGi <= 21
  {
    if stepPercent > 5.0 || maxSizeGi <= 21 {
      forall was: int, newGi: int
        | was > 0 && NewSize(Bytes(was), stepPercent, maxSizeGi) == Ok(Some(newGi))
        ensures InFlightOrFull(was, GiSize(newGi), maxSizeGi)
      {
        if maxSizeGi <= 21 {
          SmallVolumeIsInFlight(was, stepPercent, maxSizeGi, newGi);
        } else {
          ResizeIsInFlight(was, stepPercent, maxSizeGi, newGi);
        }
      }
    } else {
      TwentyGiIsNotInFlight(stepPercent, maxSizeGi);
    }
  }

  /** Both volumes critical, the kubelet still reporting the old capacity, nothing else known. */
  function StillCritical(was: int): Metrics {
    Metrics(PosInf, PosInf, NaN, NaN, NaN, Fin(was as real), Fin(was as real))
  }

  lemma {:induction false} StillCriticalResizes(size: Quantity, cfg: Config, last: Option<int>, now: int, was: int)
    requires cfg.Valid() && was > 0 && size.Bytes?
    ensures WithinOld(StillCritical(was).walCapacityBytes, was)
    ensures WithinOld(StillCritical(was).pgdataCapacityBytes, was)
    ensures cfg.walEnabled && !InFlightOrFull(was, size, cfg.wal.maxSizeGi) ==>
              WALResizes(StillCritical(was), size, cfg, last, now)
    ensures !InFlightOrFull(was, size, cfg.pgdata.maxSizeGi) ==>
              && PGDataResizes(StillCritical(was), size, cfg, last, now)
              && PGDataTrigger(StillCritical(was), size, cfg) == Some(Critical)
  {
  }

  /** The condition is exact: some metrics with a capacity of at most the old size resize the WAL, and some resize
      pgdata for its usage, exactly when the volume is neither in flight nor full, whatever the cooldown says. */
  lemma {:induction false} ResizableExactly(size: Quantity, cfg: Config, last: Option<int>, now: int, was: int)
    requires cfg.Valid() && was > 0 && size.Bytes?
    ensures cfg.walEnabled ==>
              ((exists m: Metrics :: WithinOld(m.walCapacityBytes, was) && WALResizes(m, size, cfg, last, now))
               <==> !InFlightOrFull(was, size, cfg.wal.maxSizeGi))
    ensures (exists m: Metrics ::
               && WithinOld(m.pgdataCapacityBytes, was) && PGDataResizes(m, size, cfg, last, now)
               && PGDataTrigger(m, size, cfg) != Some(Preemptive))
            <==> !InFlightOrFull(was, size, cfg.pgdata.maxSizeGi)
  {
    StillCriticalResizes(size, cfg, last, now, was);
    forall m: Metrics
      ensures InFlightOrFull(was, size, cfg.wal.maxSizeGi) && WithinOld(m.walCapacityBytes, was)
          ==> !WALResizes(m, size, cfg, last, now)
      ensures InFlightOrFull(was, size, cfg.pgdata.maxSizeGi) && WithinOld(m.pgdataCapacityBytes, was)
              && PGDataResizes(m, size, cfg, last, now)
          ==> PGDataTrigger(m, size, cfg) == Some(Preemptive)
    {
      OnlyPreemptiveInFlight(m, size, cfg, last, now, was);
    }
  }
}
