/** The polling file watcher of `ahdcode dev`. */
module DevWatcher {
  import opened Options

  type Path = string

  datatype Snapshot = Missing | Present(modTime: int, size: int)

  /** What stat reports for each path at some moment. */
  type Disk = Path -> Snapshot

  const DEBOUNCE: nat := 200

  type Snapshots = map<Path, Snapshot>

  datatype Watcher = Watcher(
    snapshots: Snapshots,
    changedAt: Option<nat>,  // when a change not yet reported was last seen
    sending: bool)           // blocked on reporting a change to the controller

  /** A path that stays keeps its snapshot; a new one gets a fresh baseline. */
  function PathSet(snapshots: Snapshots, paths: seq<Path>, disk: Disk): Snapshots {
    map path | path in paths :: if path in snapshots then snapshots[path] else disk(path)
  }

  ghost predicate Changed(snapshots: Snapshots, disk: Disk) {
    exists path :: path in snapshots && disk(path) != snapshots[path] && disk(path) != Missing
  }

  function Polled(snapshots: Snapshots, disk: Disk): Snapshots {
    map path | path in snapshots :: disk(path)
  }

  /** One tick: poll, then hand a change over once it is old enough. */
  ghost function Ticked(w: Watcher, now: nat, disk: Disk): Watcher {
    var changedAt := if Changed(w.snapshots, disk) then Some(now) else w.changedAt;
    var due := changedAt.Some? && now - changedAt.value >= DEBOUNCE;
    Watcher(Polled(w.snapshots, disk), if due then None else changedAt, w.sending || due)
  }

  /** A tick that sees a change hands nothing over: the change has to be old enough. */
  lemma FreshChangeWaits(w: Watcher, now: nat, disk: Disk)
    requires Changed(w.snapshots, disk)
    ensures var t := Ticked(w, now, disk); t.changedAt == Some(now) && t.sending == w.sending
  {
  }

  /** Ticks one after the other. */
  ghost function TickedBy(w: Watcher, times: seq<nat>, disk: Disk): Watcher {
    if times == [] then w
    else Ticked(TickedBy(w, times[..|times| - 1], disk), times[|times| - 1], disk)
  }

  /** A change last seen at `seen` is handed over once the disk stays as it is, at the
      first tick that comes at least the debounce time later, and never before. */
  lemma {:induction false} Debounced(w: Watcher, seen: nat, times: seq<nat>, disk: Disk)
    requires w.changedAt == Some(seen) && !w.sending && !Changed(w.snapshots, disk)
    ensures var t := TickedBy(w, times, disk);
            var due := exists i :: 0 <= i < |times| && times[i] - seen >= DEBOUNCE;
            && t.sending == due && t.changedAt == (if due then None else Some(seen))
            && !Changed(t.snapshots, disk)
  {
    if times != [] {
      var earlier := times[..|times| - 1];
      Debounced(w, seen, earlier, disk);
      StaysQuiet(TickedBy(w, earlier, disk).snapshots, disk);
      hide Changed, Polled;
      assert forall i :: 0 <= i < |earlier| ==> earlier[i] == times[i];
      if i :| 0 <= i < |times| && times[i] - seen >= DEBOUNCE && i < |earlier| {
        assert earlier[i] - seen >= DEBOUNCE;
      }
    }
  }

  lemma StaysQuiet(snapshots: Snapshots, disk: Disk)
    ensures !Changed(Polled(snapshots, disk), disk)
  {
  }

  class FileWatcher {
    var snapshots: Snapshots
    var changedAt: Option<nat>
    var sending: bool

    ghost function State(): Watcher
      reads this
    {
      Watcher(snapshots, changedAt, sending)
    }

    constructor (initialPaths: seq<Path>, disk: Disk)
      ensures State() == Watcher(PathSet(map[], initialPaths, disk), None, false)
    {
      snapshots, changedAt, sending := map[], None, false;
      new;
      for i := 0 to |initialPaths|
        invariant State() == Watcher(PathSet(map[], initialPaths[..i], disk), None, false)
      {
        snapshots := snapshots[initialPaths[i] := disk(initialPaths[i])];
      }
      assert initialPaths[..|initialPaths|] == initialPaths;
    }

    method ApplyPathSet(paths: seq<Path>, disk: Disk)
      modifies this`snapshots
      ensures snapshots == PathSet(old(snapshots), paths, disk)
      ensures forall path :: path in snapshots <==> path in paths
      ensures forall path :: path in snapshots && path in old(snapshots) ==> snapshots[path] == old(snapshots)[path]
      ensures forall path :: path in snapshots && path !in old(snapshots) ==> snapshots[path] == disk(path)
    {
      var next: Snapshots := map[];
      for i := 0 to |paths|
        invariant next == PathSet(snapshots, paths[..i], disk)
      {
        next := next[paths[i] := if paths[i] in snapshots then snapshots[paths[i]] else disk(paths[i])];
      }
      assert paths[..|paths|] == paths;
      snapshots := next;
    }

    method PollChanges(disk: Disk) returns (changed: bool)
      modifies this`snapshots
      ensures snapshots == Polled(old(snapshots), disk)
      ensures snapshots.Keys == old(snapshots).Keys
      ensures forall path :: path in snapshots ==> snapshots[path] == disk(path)
      ensures changed <==> Changed(old(snapshots), disk)
    {
      changed := false;
      var todo := snapshots.Keys;
      while todo != {}
        invariant todo <= snapshots.Keys == old(snapshots).Keys
        invariant forall path :: path in snapshots ==>
          snapshots[path] == if path in todo then old(snapshots)[path] else disk(path)
        invariant changed <==> exists path ::
            path in snapshots && path !in todo && disk(path) != old(snapshots)[path] && disk(path) != Missing
      {
        var path :| path in todo;
        todo := todo - {path};
        var current := disk(path);
        if current != snapshots[path] {
          snapshots := snapshots[path := current];
          if current != Missing {
            changed := true;
          }
        }
      }
    }

    method Tick(now: nat, disk: Disk)
      modifies this
      ensures State() == Ticked(old(State()), now, disk)
    {
      var changed := PollChanges(disk);
      if changed {
        changedAt := Some(now);
      }
      if changedAt.Some? && now - changedAt.value >= DEBOUNCE {
        changedAt := None;
        sending := true;
      }
    }
  }
}
