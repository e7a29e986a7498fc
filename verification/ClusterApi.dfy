/** The shared Cluster object behind the Kubernetes API, and the client calls that read and overwrite it. */
module ClusterApi {
  import opened Basics

  /** A storage size as the source finds it: a quantity string that is empty, unreadable or a byte count. */
  datatype Quantity = Missing | Malformed | Bytes(bytes: int)

  /** The fields of the Cluster that the controllers touch; `wal` is None when there is no walStorage. */
  datatype ClusterObject = ClusterObject(version: nat, instances: int, pgdata: Quantity, wal: Option<Quantity>)

  function WalSize(wal: Option<Quantity>): Quantity {
    if wal.Some? then wal.value else Missing
  }

  /** What the network makes of an Update: it arrives, it is lost, or it arrives and the reply is lost. */
  datatype Delivery = Delivered | NotDelivered | ReplyLost

  predicate Accepted(stored: ClusterObject, submitted: ClusterObject, delivery: Delivery) {
    delivery != NotDelivered && submitted.version == stored.version
  }

  /** The server replaces the whole object, unless the submitted version is stale. */
  function Updated(stored: ClusterObject, submitted: ClusterObject, delivery: Delivery): ClusterObject {
    if Accepted(stored, submitted, delivery) then submitted.(version := stored.version + 1) else stored
  }

  class ApiServer {
    var stored: ClusterObject

    constructor (initial: ClusterObject)
      ensures stored == initial
    {
      stored := initial;
    }

    method Get(reachable: bool) returns (r: Result<ClusterObject>)
      ensures r == if reachable then Ok(stored) else Err
    {
      r := if reachable then Ok(stored) else Err;
    }

    method Update(submitted: ClusterObject, delivery: Delivery) returns (ok: bool)
      modifies this
      ensures stored == Updated(old(stored), submitted, delivery)
      ensures ok <==> Accepted(old(stored), submitted, delivery) && delivery == Delivered
    {
      ok := Accepted(stored, submitted, delivery) && delivery == Delivered;
      stored := Updated(stored, submitted, delivery);
    }
  }

  /** The instance-scaling controller's client. */
  class CnpgClient {
    const api: ApiServer

    constructor (api: ApiServer)
      ensures this.api == api
    {
      this.api := api;
    }

    method GetCurrentInstances(reachable: bool) returns (r: Result<int>)
      ensures r == if reachable then Ok(api.stored.instances) else Err
    {
      var got := api.Get(reachable);
      r := match got case Ok(cluster) => Ok(cluster.instances) case Err => Err;
    }

    /** Run with no other write between its Get and its Update, the patch changes the instance count alone. */
    method PatchInstances(instances: int, reachable: bool, delivery: Delivery) returns (ok: bool)
      modifies api
      ensures api.stored == if reachable && delivery != NotDelivered
                            then old(api.stored).(version := old(api.stored).version + 1, instances := instances)
                            else old(api.stored)
      ensures ok <==> reachable && delivery == Delivered
    {
      var got := api.Get(reachable);
      if got.Err? {
        return false;
      }
      var cluster := got.value;
      cluster := cluster.(instances := instances);
      ok := api.Update(cluster, delivery);
    }
  }

  /** The storage-scaling controller's client. */
  class StorageActor {
    const api: ApiServer

    constructor (api: ApiServer)
      ensures this.api == api
    {
      this.api := api;
    }

    method ResizePGData(newSize: Quantity, reachable: bool, delivery: Delivery) returns (ok: bool)
      modifies api
      ensures api.stored == if reachable && delivery != NotDelivered
                            then old(api.stored).(version := old(api.stored).version + 1, pgdata := newSize)
                            else old(api.stored)
      ensures ok <==> reachable && delivery == Delivered
    {
      var got := api.Get(reachable);
      if got.Err? {
        return false;
      }
      var cluster := got.value;
      cluster := cluster.(pgdata := newSize);
      ok := api.Update(cluster, delivery);
    }

    method ResizeWAL(newSize: Quantity, reachable: bool, delivery: Delivery) returns (ok: bool)
      modifies api
      ensures api.stored == if reachable && delivery != NotDelivered && old(api.stored).wal.Some?
                            then old(api.stored).(version := old(api.stored).version + 1, wal := Some(newSize))
                            else old(api.stored)
      ensures ok <==> reachable && delivery == Delivered && old(api.stored).wal.Some?
    {
      var got := api.Get(reachable);
      if got.Err? {
        return false;
      }
      var cluster := got.value;
      if cluster.wal.None? {
        return false;
      }
      cluster := cluster.(wal := Some(newSize));
      ok := api.Update(cluster, delivery);
    }
  }
}
