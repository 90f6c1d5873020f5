/** The fleet read model (backend/app/services/registry.py): connectivity derived at read time. */
module Registry {
  import opened Wrappers
  import opened Telemetry

  datatype FleetView = FleetView(fleetId: string, lastHeartbeat: Option<Time>, connectivity: Connectivity)

  function BuildView(events: seq<Event>, fleetId: string, now: Time, timeout: Time): FleetView {
    var heartbeat := LatestEvent(events, fleetId, Heartbeat);
    var age := if heartbeat.Some? then Some(now - heartbeat.value.timestamp) else None;
    var connectivity :=
      if heartbeat.None? then Unknown
      else if age.Some? && age.value > timeout then Offline
      else Online;
    FleetView(fleetId, if heartbeat.Some? then Some(heartbeat.value.timestamp) else None, connectivity)
  }

  function ListViews(events: seq<Event>, assets: seq<string>, now: Time, timeout: Time): seq<FleetView> {
    seq(|assets|, i requires 0 <= i < |assets| => BuildView(events, assets[i], now, timeout))
  }

  function CountIn(views: seq<FleetView>, c: Connectivity): nat {
    if views == [] then 0 else
      CountIn(views[..|views| - 1], c) + if views[|views| - 1].connectivity == c then 1 else 0
  }

  lemma {:induction false} CountsAddUp(views: seq<FleetView>)
    ensures CountIn(views, Online) + CountIn(views, Offline) + CountIn(views, Unknown) == |views|
  {
    if views != [] {
      CountsAddUp(views[..|views| - 1]);
    }
  }

  /** The read model's service: every view is built from the store and on the clock as they are when asked. */
  class RegistryService {
    const store: InMemoryEventStorage
    const offlineTimeout: Time

    constructor (store: InMemoryEventStorage, offlineTimeout: Time)
      ensures this.store == store && this.offlineTimeout == offlineTimeout
    {
      this.store, this.offlineTimeout := store, offlineTimeout;
    }

    method BuildViewOf(fleetId: string, now: Time) returns (view: Fetched<FleetView>)
      ensures view.Ok? ==> view.value == BuildView(store.events, fleetId, now, offlineTimeout)
    {
      var found := store.Latest(fleetId, Heartbeat);
      if found.StorageError? {
        return StorageError;
      }
      var heartbeat, age := None, None;
      if found.value.Some? {
        heartbeat := Some(found.value.value.timestamp);
        age := Some(now - found.value.value.timestamp);
      }
      var connectivity := Online;
      if heartbeat.None? {
        connectivity := Unknown;
      } else if age.Some? && age.value > offlineTimeout {
        connectivity := Offline;
      }
      view := Ok(FleetView(fleetId, heartbeat, connectivity));
    }

    /**
     * Builds one view after the other. `clock` is what the clock reads for each
     * asset in turn, and events may arrive in between: `seen` is the stream each
     * view was built from.
     */
    method ViewsOf(assets: Fetched<seq<string>>, clock: nat -> Time)
      returns (views: Fetched<seq<FleetView>>, ghost seen: seq<seq<Event>>)
      modifies store
      ensures views.Ok? ==>
                && assets.Ok? && |views.value| == |seen| == |assets.value|
                && (forall i | 0 <= i < |seen| ::
                      && old(store.events) <= seen[i] <= store.events
                      && views.value[i] == BuildView(seen[i], assets.value[i], clock(i), offlineTimeout)
                      && views.value[i].fleetId == assets.value[i])
                && (forall i, j | 0 <= i < j < |seen| :: seen[i] <= seen[j])
    {
      seen := [];
      if assets.StorageError? {
        return StorageError, [];
      }
      var built := [];
      for i := 0 to |assets.value|
        invariant |built| == |seen| == i && old(store.events) <= store.events
        invariant forall k | 0 <= k < i :: old(store.events) <= seen[k] <= store.events
        invariant forall k | 0 <= k < i :: built[k] == BuildView(seen[k], assets.value[k], clock(k), offlineTimeout)
        invariant forall k, l | 0 <= k < l < i :: seen[k] <= seen[l]
      {
        ghost var arrived := store.OthersInsert();
        var view := BuildViewOf(assets.value[i], clock(i));
        if view.StorageError? {
          return StorageError, seen;
        }
        built, seen := built + [view.value], seen + [store.events];
      }
      views := Ok(built);
    }
  }
}
