/**
 The map refresher: an object that owns a pointer to a caller's map and an
 updater, and replaces every value of the map with `updater(key, value)`,
 either on demand or from a background loop, until it is stopped.

 The background thread itself is not modelled: one round of its loop is
 `RunnerRound`, which runs the very pass `SyncRefreshNow` runs.
 */
module Refresher {
  import opened RefreshSpec

  /** The `unsigned int` the interval is stored in. */
  type uint32 = x: int | 0 <= x < 0x1_0000_0000

  /** The interval used when none is given: one minute, in milliseconds. */
  const DefaultTimer: uint32 := 60000

  /** The caller's `std::map<K, V>`, which the refresher reaches through a pointer. */
  class TargetMap<V> {
    var entries: map<int, V>

    constructor (init: map<int, V>)
      ensures entries == init
    {
      entries := init;
    }
  }

  class MapRefresher<V> {
    /** The map to refresh; not owned, so the caller can read it through its own reference. */
    const target: TargetMap<V>
    /** The updater, a pure function of the key and the key's current value. */
    const updater: (int, V) -> V
    /** Whether the background loop is asked to keep going. */
    var isRunning: bool
    /** The wait between two background passes, in milliseconds. */
    var millis: uint32

    /** The two-argument constructor: not running, default interval. */
    constructor (toRefresh: TargetMap<V>, updater: (int, V) -> V)
      ensures target == toRefresh && this.updater == updater
      ensures !isRunning && millis == DefaultTimer
      ensures unchanged(toRefresh)
    {
      target := toRefresh;
      this.updater := updater;
      isRunning := false;
      millis := DefaultTimer;
    }

    /** The three-argument constructor: not running, exactly the given interval. */
    constructor WithInterval(toRefresh: TargetMap<V>, updater: (int, V) -> V, milliseconds: uint32)
      ensures target == toRefresh && this.updater == updater
      ensures !isRunning && millis == milliseconds
      ensures unchanged(toRefresh)
    {
      target := toRefresh;
      this.updater := updater;
      isRunning := false;
      millis := milliseconds;
    }

    /**
     Raises the running flag (and, in the original, launches a thread). A
     refresher that is already running is not rejected.
     */
    method Start()
      modifies this
      ensures isRunning
      ensures millis == old(millis)
    {
      isRunning := true;
    }

    /** Lowers the running flag (and, in the original, deletes the thread handle). */
    method Stop()
      modifies this
      ensures !isRunning
      ensures millis == old(millis)
    {
      isRunning := false;
    }

    /** Sets the interval to any `unsigned int`, zero included, and changes nothing else. */
    method ChangeWaitInterval(milliseconds: uint32)
      modifies this
      ensures millis == milliseconds
      ensures isRunning == old(isRunning)
    {
      millis := milliseconds;
    }

    /**
     One refresh pass over the target, in place: the keys are visited in
     ascending order, each entry is copied before its slot is overwritten,
     and only keys taken from the map itself are written. `calls` records
     each updater invocation as `(key, argument)`.
     */
    method SyncRefreshNow() returns (ghost calls: seq<(int, V)>)
      modifies target
      ensures target.entries.Keys == old(target.entries.Keys)
      ensures forall k :: k in old(target.entries) ==> target.entries[k] == updater(k, old(target.entries)[k])
      ensures target.entries == Pass(updater, old(target.entries))
      ensures calls == Invocations(old(target.entries))
    {
      ghost var start := target.entries;
      var todo := target.entries.Keys;
      ghost var visited: seq<int> := [];
      calls := [];
      WalkStart(start.Keys);
      while todo != {}
        invariant WalkSoFar(start.Keys, todo, visited)
        invariant calls == Trace(start, visited)
        invariant target.entries.Keys == start.Keys
        invariant forall k :: k in start ==> target.entries[k] == if k in todo then start[k] else updater(k, start[k])
        decreases |todo|
      {
        assert IsLeast(Least(todo), todo);
        var key :| key in todo && forall j :: j in todo ==> key <= j;
        WalkStep(start.Keys, todo, visited, key);
        TraceSnoc(start, visited, key);
        var entry := (key, target.entries[key]);
        target.entries := target.entries[entry.0 := updater(entry.0, entry.1)];
        calls := calls + [entry];
        visited := visited + [key];
        todo := todo - {key};
      }
      WalkDone(start.Keys, visited);
      PassByKey(updater, start, target.entries);
    }

    /**
     One round of the background loop: when the running flag is up, one
     pass (the same as `SyncRefreshNow`) and then a sleep of the current
     interval, whose length is returned as `wait`; when it is down, the loop
     ends without touching the map.
     */
    method RunnerRound() returns (continued: bool, wait: uint32)
      modifies target
      ensures continued == isRunning
      ensures continued ==> target.entries == Pass(updater, old(target.entries)) && wait == millis
      ensures !continued ==> unchanged(target)
    {
      continued := isRunning;
      wait := 0;
      if continued {
        ghost var _ := SyncRefreshNow();
        wait := millis;
      }
    }

    /** The destructor: stops the refresher only if it is running; afterwards it is not. */
    method Destroy() returns (stopped: bool)
      modifies this
      ensures stopped == old(isRunning)
      ensures !isRunning && millis == old(millis)
      ensures !stopped ==> unchanged(this)
    {
      stopped := isRunning;
      if isRunning {
        Stop();
      }
    }
  }
}
