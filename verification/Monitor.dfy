// MonitorService: the table of monitoring goroutines, their contexts and the pending gauge.
module Monitor {
  datatype StrategyKind = Limit | Dca | Market

  type Gauge = map<StrategyKind, int>

  // A table entry: the handle that cancels the goroutine, and its kind
  datatype Tracked<T> = Tracked(handle: T, kind: StrategyKind)

  function Reading(gauge: Gauge, kind: StrategyKind): int {
    if kind in gauge then gauge[kind] else 0
  }

  function Bumped(gauge: Gauge, kind: StrategyKind, delta: int): Gauge {
    gauge[kind := Reading(gauge, kind) + delta]
  }

  // The table and the gauge change together, under one lock.
  datatype Watch<T> = Watch(table: map<string, Tracked<T>>, gauge: Gauge)

  function Started<T>(w: Watch<T>, hash: string, entry: Tracked<T>): Watch<T> {
    if hash in w.table then w else Watch(w.table[hash := entry], Bumped(w.gauge, entry.kind, 1))
  }

  function Stopped<T>(w: Watch<T>, hash: string): Watch<T> {
    if hash !in w.table then w else Watch(w.table - {hash}, Bumped(w.gauge, w.table[hash].kind, -1))
  }

  class Context {
    var cancelled: bool

    constructor ()
      ensures !cancelled
    {
      cancelled := false;
    }
  }

  class MonitorService {
    var stopChans: map<string, Tracked<Context>>
    var pendingStrategies: Gauge

    constructor ()
      ensures stopChans == map[] && pendingStrategies == map[]
    {
      stopChans := map[];
      pendingStrategies := map[];
    }

    function Watching(): Watch<Context>
      reads this
    {
      Watch(stopChans, pendingStrategies)
    }

    // startMonitoring: the returned context is that of the goroutine it spawns
    method StartMonitoring(commitmentHash: string, kind: StrategyKind) returns (spawned: Context?)
      modifies this
      ensures spawned == null <==> commitmentHash in old(stopChans)
      ensures spawned == null ==> Watching() == old(Watching())
      ensures spawned != null ==>
        fresh(spawned) && !spawned.cancelled && Watching() == Started(old(Watching()), commitmentHash, Tracked(spawned, kind))
    {
      if commitmentHash in stopChans {
        return null;
      }
      var child := new Context();
      stopChans := stopChans[commitmentHash := Tracked(child, kind)];
      pendingStrategies := Bumped(pendingStrategies, kind, 1);
      return child;
    }

    method StopMonitoring(commitmentHash: string)
      modifies this, if commitmentHash in stopChans then {stopChans[commitmentHash].handle} else {}
      ensures Watching() == Stopped(old(Watching()), commitmentHash)
      ensures commitmentHash in old(stopChans) ==> old(stopChans[commitmentHash].handle).cancelled
    {
      if commitmentHash in stopChans {
        var tm := stopChans[commitmentHash];
        tm.handle.cancelled := true;
        stopChans := stopChans - {commitmentHash};
        pendingStrategies := Bumped(pendingStrategies, tm.kind, -1);
      }
    }
  }
}
