/** The storage-scaling control loop: one Observe-Decide-Act cycle over both volumes. */
module StorageController {
  import opened Basics
  import opened ClusterApi
  import opened StorageDecider

  /** One reconcile cycle as the environment presents it: whether the Cluster can be read, the metrics, and for each
      volume the clock at the decision, the fate of the write and the clock after it. */
  datatype Cycle = Cycle(
    sizesReadable: bool,
    metrics: Metrics,
    pgdataDecidedAt: int,
    pgdataReachable: bool,
    pgdataDelivery: Delivery,
    pgdataDoneAt: int,
    walDecidedAt: int,
    walReachable: bool,
    walDelivery: Delivery,
    walDoneAt: int)

  datatype State = State(
    pgdata: Quantity,
    wal: Option<Quantity>,
    lastPgdataResizeAt: Option<int>,
    lastWalResizeAt: Option<int>)

  // ---- One cycle, as functions -----------------------------------------------------------

  ghost predicate PgdataResizes(cfg: Config, s: State, c: Cycle) {
    c.sizesReadable && PGDataResizes(c.metrics, s.pgdata, cfg, s.lastPgdataResizeAt, c.pgdataDecidedAt)
  }

  ghost predicate WalResizes(cfg: Config, s: State, c: Cycle) {
    c.sizesReadable && WALResizes(c.metrics, WalSize(s.wal), cfg, s.lastWalResizeAt, c.walDecidedAt)
  }

  /** The size a resize writes. */
  function NextGi(v: VolumeConfig, size: Quantity): int {
    var r := NewSize(size, v.stepPercent, v.maxSizeGi);
    if r.Ok? && r.value.Some? then r.value.value else 0
  }

  predicate PgdataLands(c: Cycle) {
    c.pgdataReachable && c.pgdataDelivery != NotDelivered
  }

  predicate PgdataAcknowledged(c: Cycle) {
    c.pgdataReachable && c.pgdataDelivery == Delivered
  }

  predicate WalLands(c: Cycle) {
    c.walReachable && c.walDelivery != NotDelivered
  }

  predicate WalAcknowledged(c: Cycle) {
    c.walReachable && c.walDelivery == Delivered
  }

  ghost function AfterCycle(cfg: Config, s: State, c: Cycle): State {
    var (pg, wal) := (PgdataResizes(cfg, s, c), WalResizes(cfg, s, c));
    State(
      if pg && PgdataLands(c) then GiSize(NextGi(cfg.pgdata, s.pgdata)) else s.pgdata,
      if wal && WalLands(c) then Some(GiSize(NextGi(cfg.wal, WalSize(s.wal)))) else s.wal,
      if pg && PgdataAcknowledged(c) then Some(c.pgdataDoneAt) else s.lastPgdataResizeAt,
      if wal && WalAcknowledged(c) then Some(c.walDoneAt) else s.lastWalResizeAt)
  }

  // ---- The controller object -------------------------------------------------------------------

  class Controller {
    const cfg: Config
    const actor: StorageActor
    var lastPGDataResizeAt: Option<int>
    var lastWALResizeAt: Option<int>
    var pgdataAboveThreshold: bool

    ghost function View(): State
      reads this, actor, actor.api
    {
      State(actor.api.stored.pgdata, actor.api.stored.wal, lastPGDataResizeAt, lastWALResizeAt)
    }

    constructor (cfg: Config, actor: StorageActor)
      ensures this.cfg == cfg && this.actor == actor && !pgdataAboveThreshold
      ensures View() == State(actor.api.stored.pgdata, actor.api.stored.wal, None, None)
    {
      this.cfg := cfg;
      this.actor := actor;
      lastPGDataResizeAt := None;
      lastWALResizeAt := None;
      pgdataAboveThreshold := false;
    }

    /** One cycle does what `AfterCycle` says, and touches nothing of the Cluster but the two sizes. */
    method ReconcileOnce(c: Cycle)
      requires cfg.Valid()
      modifies this, actor.api
      ensures View() == AfterCycle(cfg, old(View()), c)
      ensures actor.api.stored.instances == old(actor.api.stored.instances)
      ensures pgdataAboveThreshold ==
              if c.sizesReadable && !c.metrics.pgdataUsagePercent.NaN?
              then c.metrics.pgdataUsagePercent.AtLeast(cfg.pgdata.scaleUpThresholdPercent)
              else old(pgdataAboveThreshold)
    {
      var got := actor.api.Get(c.sizesReadable);
      if got.Err? {
        return;
      }
      var pgdataSize := got.value.pgdata;
      var walSize := WalSize(got.value.wal);

      if !c.metrics.pgdataUsagePercent.NaN? {
        pgdataAboveThreshold := c.metrics.pgdataUsagePercent.AtLeast(cfg.pgdata.scaleUpThresholdPercent);
      }

      var pgdata := DecidePGData(c.metrics, pgdataSize, cfg, lastPGDataResizeAt, c.pgdataDecidedAt);
      if pgdata.Resize? {
        var ok := actor.ResizePGData(GiSize(pgdata.newGi), c.pgdataReachable, c.pgdataDelivery);
        if ok {
          lastPGDataResizeAt := Some(c.pgdataDoneAt);
        }
      }

      var wal := DecideWAL(c.metrics, walSize, cfg, lastWALResizeAt, c.walDecidedAt);
      if wal.Resize? {
        var ok := actor.ResizeWAL(GiSize(wal.newGi), c.walReachable, c.walDelivery);
        if ok {
          lastWALResizeAt := Some(c.walDoneAt);
        }
      }
    }
  }
}
