/** Both controllers writing one Cluster object: every interleaving of their Get and Update calls. */
module ClusterWrites {
  import opened Basics
  import opened ClusterApi
  import opened StorageDecider

  /** Where the storage controller is in its cycle. The sizes it decided on are the ones it observed at the start;
      each write fetches the object again before it updates it. */
  datatype StoragePhase =
    | Idle
    | Observed(pgdata: Quantity, wal: Quantity)
    | PgdataFetched(copy: ClusterObject, newGi: int, wal: Quantity)
    | PgdataDone(wal: Quantity)
    | WalFetched(copy: ClusterObject, newGi: int)

  /** The stored object, the copies held by instance patches under way (any number of them), and the phase of the
      one storage controller. */
  datatype System = System(stored: ClusterObject, patches: map<int, ClusterObject>, storage: StoragePhase)

  datatype Limits = Limits(pgdata: VolumeConfig, wal: VolumeConfig)

  datatype Step =
    | PatchGet(patcher: int)
    | PatchUpdate(patcher: int, instances: int, delivery: Delivery)
    | Observe
    | PgdataGet(newGi: int)
    | PgdataUpdate(delivery: Delivery)
    | PgdataSkip
    | WalGet(newGi: int)
    | WalUpdate(delivery: Delivery)
    | WalSkip

  ghost predicate Enabled(l: Limits, s: System, step: Step) {
    match step
    case PatchGet(patcher) => patcher !in s.patches
    case PatchUpdate(patcher, _, _) => patcher in s.patches
    case Observe => s.storage.Idle?
    case PgdataGet(newGi) =>
      s.storage.Observed? && NewSize(s.storage.pgdata, l.pgdata.stepPercent, l.pgdata.maxSizeGi) == Ok(Some(newGi))
    case PgdataUpdate(_) => s.storage.PgdataFetched?
    case PgdataSkip => s.storage.Observed?
    case WalGet(newGi) =>
      s.storage.PgdataDone? && NewSize(s.storage.wal, l.wal.stepPercent, l.wal.maxSizeGi) == Ok(Some(newGi))
    case WalUpdate(_) => s.storage.WalFetched? && s.storage.copy.wal.Some?
    case WalSkip => s.storage.PgdataDone? || s.storage.WalFetched?
  }

  ghost function Next(l: Limits, s: System, step: Step): System
    requires Enabled(l, s, step)
  {
    match step
    case PatchGet(patcher) => s.(patches := s.patches[patcher := s.stored])
    case PatchUpdate(patcher, _, delivery) =>
      s.(stored := Updated(s.stored, s.patches[patcher].(instances := step.instances), delivery),
         patches := s.patches - {patcher})
    case Observe => s.(storage := Observed(s.stored.pgdata, WalSize(s.stored.wal)))
    case PgdataGet(newGi) => s.(storage := PgdataFetched(s.stored, newGi, s.storage.wal))
    case PgdataUpdate(delivery) =>
      s.(stored := Updated(s.stored, s.storage.copy.(pgdata := GiSize(s.storage.newGi)), delivery),
         storage := PgdataDone(s.storage.wal))
    case PgdataSkip => s.(storage := PgdataDone(s.storage.wal))
    case WalGet(newGi) => s.(storage := WalFetched(s.stored, newGi))
    case WalUpdate(delivery) =>
      s.(stored := Updated(s.stored, s.storage.copy.(wal := Some(GiSize(s.storage.newGi))), delivery),
         storage := Idle)
    case WalSkip => s.(storage := Idle)
  }

  /** A run: every step enabled where it is taken. */
  ghost predicate IsRun(l: Limits, s: System, steps: seq<Step>)
    decreases |steps|, 0
  {
    steps == [] || (IsRun(l, s, Init(steps)) && Enabled(l, RunFrom(l, s, Init(steps)), Last(steps)))
  }

  ghost function RunFrom(l: Limits, s: System, steps: seq<Step>): System
    requires IsRun(l, s, steps)
    decreases |steps|, 1
  {
    if steps == [] then s else Next(l, RunFrom(l, s, Init(steps)), Last(steps))
  }

  // ---- The invariant -----------------------------------------------------------------------

  /** A copy is a past state of the object: stale, or identical to what is stored. */
  ghost predicate IsSnapshot(copy: ClusterObject, stored: ClusterObject) {
    copy.version < stored.version || copy == stored
  }

  /** Copies are snapshots; and since nobody else writes the sizes, what the storage controller saw of them is still
      true when it writes, however many instance patches have gone through in between. */
  ghost predicate Invariant(l: Limits, s: System) {
    && (forall patcher :: patcher in s.patches ==> IsSnapshot(s.patches[patcher], s.stored))
    && match s.storage
       case Idle => true
       case Observed(pgdata, wal) => pgdata == s.stored.pgdata && wal == WalSize(s.stored.wal)
       case PgdataFetched(copy, newGi, wal) =>
         && IsSnapshot(copy, s.stored) && wal == WalSize(s.stored.wal)
         && NewSize(s.stored.pgdata, l.pgdata.stepPercent, l.pgdata.maxSizeGi) == Ok(Some(newGi))
       case PgdataDone(wal) => wal == WalSize(s.stored.wal)
       case WalFetched(copy, newGi) =>
         && IsSnapshot(copy, s.stored)
         && NewSize(WalSize(s.stored.wal), l.wal.stepPercent, l.wal.maxSizeGi) == Ok(Some(newGi))
  }

  /** What an update step may change: the version and its writer's own field, by the writer's own value. */
  ghost predicate OnlyOwnField(before: System, step: Step, after: ClusterObject) {
    after == before.stored ||
    match step
    case PatchUpdate(_, instances, _) =>
      after == before.stored.(version := before.stored.version + 1, instances := instances)
    case PgdataUpdate(_) =>
      before.storage.PgdataFetched? &&
      after == before.stored.(version := before.stored.version + 1, pgdata := GiSize(before.storage.newGi))
    case WalUpdate(_) =>
      before.storage.WalFetched? &&
      after == before.stored.(version := before.stored.version + 1, wal := Some(GiSize(before.storage.newGi)))
    case _ => false
  }

  /** A size is kept or replaced by a larger one. */
  ghost predicate NotShrunk(before: Quantity, after: Quantity) {
    after == before || (before.Bytes? && after.Bytes? && after.bytes > before.bytes)
  }

  lemma {:induction false} StepKeepsInvariant(l: Limits, s: System, step: Step)
    requires Invariant(l, s) && Enabled(l, s, step)
    ensures Invariant(l, Next(l, s, step))
    ensures OnlyOwnField(s, step, Next(l, s, step).stored)
    ensures NotShrunk(s.stored.pgdata, Next(l, s, step).stored.pgdata)
    ensures NotShrunk(WalSize(s.stored.wal), WalSize(Next(l, s, step).stored.wal))
  {
    match step
    case PgdataUpdate(_) =>
      if s.stored.pgdata.Bytes? {
        NewSizeGrows(s.stored.pgdata.bytes, l.pgdata.stepPercent, l.pgdata.maxSizeGi);
      }
    case WalUpdate(_) =>
      if WalSize(s.stored.wal).Bytes? {
        NewSizeGrows(WalSize(s.stored.wal).bytes, l.wal.stepPercent, l.wal.maxSizeGi);
      }
    case _ =>
  }

  lemma {:induction false} InvariantAlways(l: Limits, s: System, steps: seq<Step>)
    requires Invariant(l, s) && IsRun(l, s, steps)
    ensures Invariant(l, RunFrom(l, s, steps))
  {
    if steps != [] {
      InvariantAlways(l, s, Init(steps));
      StepKeepsInvariant(l, RunFrom(l, s, Init(steps)), Last(steps));
    }
  }

  /** No lost update: in every interleaving, whatever an update step leaves stored differs from what was stored before
      it in the writer's own field at most. An instance patch never undoes a resize, nor a resize a patch. */
  lemma {:induction false} NoLostUpdate(l: Limits, start: ClusterObject, steps: seq<Step>)
    requires steps != [] && IsRun(l, System(start, map[], Idle), steps)
    ensures OnlyOwnField(RunFrom(l, System(start, map[], Idle), Init(steps)), Last(steps),
                         RunFrom(l, System(start, map[], Idle), steps).stored)
  {
    var s := System(start, map[], Idle);
    InvariantAlways(l, s, Init(steps));
    StepKeepsInvariant(l, RunFrom(l, s, Init(steps)), Last(steps));
  }

  /** Over every interleaving the two sizes never shrink, from the start or from any later point. */
  lemma {:induction false} SizesNeverShrink(l: Limits, s: System, steps: seq<Step>)
    requires Invariant(l, s) && IsRun(l, s, steps)
    ensures NotShrunk(s.stored.pgdata, RunFrom(l, s, steps).stored.pgdata)
    ensures NotShrunk(WalSize(s.stored.wal), WalSize(RunFrom(l, s, steps).stored.wal))
  {
    if steps != [] {
      SizesNeverShrink(l, s, Init(steps));
      InvariantAlways(l, s, Init(steps));
      StepKeepsInvariant(l, RunFrom(l, s, Init(steps)), Last(steps));
    }
  }

  // ---- When an update is refused -------------------------------------------------------------

  /** How many writes the server accepted during these steps. */
  ghost function AcceptedWrites(l: Limits, s: System, steps: seq<Step>): nat
    requires IsRun(l, s, steps)
  {
    if steps == [] then 0
    else
      var before := RunFrom(l, s, Init(steps));
      AcceptedWrites(l, s, Init(steps)) + if Next(l, before, Last(steps)).stored == before.stored then 0 else 1
  }

  ghost predicate Releases(step: Step, patcher: int) {
    step.PatchUpdate? && step.patcher == patcher
  }

  /** Until it updates, a patch keeps the copy it fetched, and the version counts the writes accepted meanwhile. */
  lemma {:induction false} HeldCopy(l: Limits, s: System, steps: seq<Step>, patcher: int)
    requires IsRun(l, s, steps) && patcher in s.patches
    requires forall step :: step in steps ==> !Releases(step, patcher)
    ensures var t := RunFrom(l, s, steps);
            && patcher in t.patches && t.patches[patcher] == s.patches[patcher]
            && t.stored.version == s.stored.version + AcceptedWrites(l, s, steps)
  {
    if steps != [] {
      assert Last(steps) in steps;
      HeldCopy(l, s, Init(steps), patcher);
    }
  }

  /** A patch is refused exactly when another write was accepted between its Get and its Update, or the call never
      arrived; in every interleaving. */
  lemma {:induction false} RefusedWhenOvertaken(l: Limits, s: System, patcher: int, between: seq<Step>,
                                                instances: int, delivery: Delivery)
    requires Enabled(l, s, PatchGet(patcher)) && IsRun(l, Next(l, s, PatchGet(patcher)), between)
    requires forall step :: step in between ==> !Releases(step, patcher)
    ensures var fetched := Next(l, s, PatchGet(patcher));
            var t := RunFrom(l, fetched, between);
            var update := PatchUpdate(patcher, instances, delivery);
            && Enabled(l, t, update)
            && (Next(l, t, update).stored == t.stored
                <==> delivery == NotDelivered || AcceptedWrites(l, fetched, between) > 0)
  {
    HeldCopy(l, Next(l, s, PatchGet(patcher)), between, patcher);
  }

  /** The version check is what all this rests on: a server that took stale objects would let an instance patch
      that fetched before a resize write the old, smaller size back. */
  lemma {:induction false} UncheckedUpdateShrinks(l: Limits, stored: ClusterObject, newGi: int, instances: int)
    requires stored.pgdata.Bytes?
    requires NewSize(stored.pgdata, l.pgdata.stepPercent, l.pgdata.maxSizeGi) == Ok(Some(newGi))
    ensures var s := RunFrom(l, System(stored, map[], Idle), []);
            var fetched := Next(l, s, PatchGet(0));
            var observed := Next(l, fetched, Observe);
            var resized := Next(l, Next(l, observed, PgdataGet(newGi)), PgdataUpdate(Delivered));
            var unchecked := resized.patches[0].(instances := instances, version := resized.stored.version + 1);
            !NotShrunk(resized.stored.pgdata, unchecked.pgdata)
  {
    NewSizeGrows(stored.pgdata.bytes, l.pgdata.stepPercent, l.pgdata.maxSizeGi);
  }
}
