/** The controller of `ahdcode dev`: the event loop that owns the build, the
    running application and the shutdown of a development session. The state
    of the machine that the loop acts on (build goroutines, processes, files,
    released waiters) is kept beside it. */
module DevController {
  import opened Options

  type Path = string

  /** A build's output path: empty, or the candidate of one build generation. */
  datatype Binary = NoBinary | Candidate(generation: nat)

  datatype BuildResult = BuildResult(ok: bool, binary: Binary, sources: seq<Path>, web: bool)

  datatype Event =
    | SourceChanged
    | BuildFinished(result: BuildResult)
    | ChildExited(generation: nat)
    | StopRequested(force: bool, waiter: Option<nat>)

  /** What the machine answers while one event is handled: whether the web
      configuration is acceptable and whether the process could be started. */
  datatype Answers = Answers(webAllowed: bool, started: bool)

  /** A stop waiter released, with what it could see of the session at that moment. */
  datatype Ack = Ack(waiter: nat, descriptor: bool, buildDirectory: bool, live: set<nat>)

  datatype World = World(
    builds: set<nat>,              // build goroutines at work, by generation
    live: set<nat>,                // processes alive, by child generation
    exiting: set<nat>,             // processes gone, exit not yet reported
    binaries: set<Binary>,         // candidates in the build directory
    descriptor: bool,              // the session descriptor exists
    buildDirectory: bool,
    released: seq<Ack>,            // stop waiters released, in order
    watchSlot: Option<seq<Path>>)  // the watcher's pending path set

  datatype Dev = Dev(
    entry: Path,
    building: bool,
    pendingRebuild: bool,
    shuttingDown: bool,
    child: Option<nat>,            // the generation of the running child
    childGeneration: nat,
    buildGeneration: nat,
    currentBinary: Binary,
    stopWaiters: seq<nat>,
    webAnnounced: bool,
    exitStatus: int,
    returned: bool,                // the loop has ended
    world: World)

  // ---- what each step of the loop does ---------------------------------------

  function AfterStartBuild(d: Dev): Dev {
    d.(building := true,
       buildGeneration := d.buildGeneration + 1,
       world := d.world.(builds := d.world.builds + {d.buildGeneration + 1}))
  }

  function Removed(w: World, binary: Binary): (r: World)
    ensures r == w.(binaries := r.binaries)
  {
    if binary == NoBinary then w else w.(binaries := w.binaries - {binary})
  }

  /** Terminates a process, gracefully or not, and waits until it is gone. */
  function Stopped(w: World, child: Option<nat>): World {
    if child.Some? && child.value in w.live then
      w.(live := w.live - {child.value}, exiting := w.exiting + {child.value})
    else
      w
  }

  function WatchSet(entry: Path, sources: seq<Path>): seq<Path> {
    if sources == [] then [entry] else
      var rest := WatchSet(entry, sources[..|sources| - 1]);
      var last := sources[|sources| - 1];
      if last in rest then rest else rest + [last]
  }

  /** The entry first, then every source, and nothing else; no path twice. */
  ghost predicate Tracks(paths: seq<Path>, entry: Path, sources: seq<Path>) {
    && paths != [] && paths[0] == entry
    && (forall path :: path in paths <==> path == entry || path in sources)
    && (forall i, j :: 0 <= i < j < |paths| ==> paths[i] != paths[j])
  }

  lemma {:induction false} WatchSetTracks(entry: Path, sources: seq<Path>)
    ensures Tracks(WatchSet(entry, sources), entry, sources)
  {
    if sources != [] {
      var shorter, last := sources[..|sources| - 1], sources[|sources| - 1];
      WatchSetTracks(entry, shorter);
      TracksOneMore(WatchSet(entry, shorter), entry, shorter, last);
      assert sources == shorter + [last];
    }
  }

  lemma TracksOneMore(paths: seq<Path>, entry: Path, sources: seq<Path>, last: Path)
    requires Tracks(paths, entry, sources)
    ensures Tracks(if last in paths then paths else paths + [last], entry, sources + [last])
  {
  }

  /** A release happens in the world as it is just then. */
  function Releasing(w: World, waiter: nat): World {
    w.(released := w.released + [Ack(waiter, w.descriptor, w.buildDirectory, w.live)])
  }

  /** Waiters released when the session's files are gone. */
  function AcksOf(waiters: seq<nat>, live: set<nat>): (acks: seq<Ack>)
    ensures |acks| == |waiters|
    ensures forall i :: 0 <= i < |acks| ==> acks[i] == Ack(waiters[i], false, false, live)
  {
    seq(|waiters|, i requires 0 <= i < |waiters| => Ack(waiters[i], false, false, live))
  }

  function AfterFinishShutdown(d: Dev): Dev {
    d.(stopWaiters := [],
       returned := true,
       world := Removed(d.world, d.currentBinary).(
         descriptor := false,
         buildDirectory := false,
         binaries := {},
         released := d.world.released + AcksOf(d.stopWaiters, d.world.live)))
  }

  /** Replaces the running child by the candidate just built. */
  function AfterReplaceChild(d: Dev, binary: Binary, started: bool): Dev {
    var w := if d.child.Some? then Removed(Stopped(d.world, d.child), d.currentBinary) else d.world;
    var generation := d.childGeneration + 1;
    if started then
      d.(childGeneration := generation,
         child := Some(generation),
         currentBinary := binary,
         world := w.(live := w.live + {generation}, descriptor := true))
    else
      d.(childGeneration := generation, child := None, currentBinary := NoBinary, world := w)
  }

  /** A production web configuration met by the first web build. */
  predicate Refuses(d: Dev, event: Event, answers: Answers) {
    && event.BuildFinished? && !d.shuttingDown
    && event.result.ok && event.result.web && !d.webAnnounced && !answers.webAllowed
  }

  /** A build came back while the session was being stopped. */
  function Discarding(d: Dev, result: BuildResult): Dev {
    d.(building := false, world := Removed(d.world, result.binary))
  }

  function Watched(d: Dev, sources: seq<Path>): Dev {
    d.(building := false, world := d.world.(watchSlot := Some(WatchSet(d.entry, sources))))
  }

  function Refused(d: Dev, result: BuildResult): Dev {
    var watched := Watched(d, result.sources);
    watched.(shuttingDown := true, exitStatus := 1, world := Removed(watched.world, result.binary))
  }

  /** The child after a build: replaced by a good one, untouched by a failed one. */
  function Settled(d: Dev, result: BuildResult, answers: Answers): Dev {
    var watched := Watched(d, result.sources);
    if result.ok then
      AfterReplaceChild(watched.(webAnnounced := d.webAnnounced || result.web), result.binary, answers.started)
    else
      watched.(world := Removed(watched.world, result.binary))
  }

  function Rebuilt(d: Dev): Dev {
    if d.pendingRebuild then AfterStartBuild(d.(pendingRebuild := false)) else d
  }

  function AfterBuildFinished(d: Dev, result: BuildResult, answers: Answers): Dev {
    if d.shuttingDown then AfterFinishShutdown(Discarding(d, result))
    else if Refuses(d, BuildFinished(result), answers) then AfterFinishShutdown(Refused(d, result))
    else Rebuilt(Settled(d, result, answers))
  }

  /** Shutdown has begun: the waiter is noted and the child is gone. */
  function Stopping(d: Dev, waiter: Option<nat>): Dev {
    d.(
      shuttingDown := true,
      stopWaiters := d.stopWaiters + (if waiter.Some? then [waiter.value] else []),
      child := None,
      currentBinary := if d.child.Some? then NoBinary else d.currentBinary,
      world := if d.child.Some? then Removed(Stopped(d.world, d.child), d.currentBinary) else d.world)
  }

  function AfterStop(d: Dev, waiter: Option<nat>): Dev {
    var stopping := Stopping(d, waiter);
    if d.building then stopping else AfterFinishShutdown(stopping)
  }

  /** The state after the loop has handled one event. */
  function Handled(d: Dev, event: Event, answers: Answers): Dev {
    match event
    case SourceChanged =>
      if d.shuttingDown then d
      else if d.building then d.(pendingRebuild := true)
      else AfterStartBuild(d)
    case BuildFinished(result) => AfterBuildFinished(d, result, answers)
    case ChildExited(generation) =>
      if generation != d.childGeneration || d.child.None? then d
      else d.(child := None, currentBinary := NoBinary)
    case StopRequested(_, waiter) => AfterStop(d, waiter)
  }

  // ---- the controller --------------------------------------------------------

  class Controller {
    const entry: Path
    var building: bool
    var pendingRebuild: bool
    var shuttingDown: bool
    var child: Option<nat>
    var childGeneration: nat
    var buildGeneration: nat
    var currentBinary: Binary
    var stopWaiters: seq<nat>
    var webAnnounced: bool
    var exitStatus: int
    var returned: bool
    var world: World

    ghost function State(): Dev
      reads this
    {
      Dev(entry, building, pendingRebuild, shuttingDown, child, childGeneration, buildGeneration, currentBinary,
          stopWaiters, webAnnounced, exitStatus, returned, world)
    }

    /** The controller as the loop finds it: the descriptor is published and
        the first build has started. */
    constructor (entry: Path)
      ensures State() == FirstState(entry)
    {
      this.entry := entry;
      building, pendingRebuild, shuttingDown, returned := false, false, false, false;
      child, childGeneration, buildGeneration, currentBinary := None, 0, 0, NoBinary;
      stopWaiters, webAnnounced, exitStatus := [], false, 0;
      world := World({}, {}, {}, {}, true, true, [], None);
      new;
      StartBuild();
    }

    method StartBuild()
      modifies this
      ensures State() == AfterStartBuild(old(State()))
    {
      building := true;
      buildGeneration := buildGeneration + 1;
      world := world.(builds := world.builds + {buildGeneration});
    }

    method RemoveCandidate(binary: Binary)
      modifies this`world
      ensures world == Removed(old(world), binary)
    {
      if binary != NoBinary {
        world := world.(binaries := world.binaries - {binary});
      }
    }

    /** SIGTERM, a grace period and SIGKILL, or SIGKILL at once: either way the
        call returns when the process has gone. */
    method StopDevChild()
      modifies this`world
      ensures world == Stopped(old(world), child)
    {
      if child.Some? && child.value in world.live {
        world := world.(live := world.live - {child.value}, exiting := world.exiting + {child.value});
      }
    }

    method UpdateWatchSet(sources: seq<Path>)
      modifies this`world
      ensures world == old(world).(watchSlot := Some(WatchSet(entry, sources)))
      ensures Tracks(world.watchSlot.value, entry, sources)
    {
      var seen, paths := {entry}, [entry];
      for i := 0 to |sources|
        invariant paths == WatchSet(entry, sources[..i])
        invariant forall path :: path in seen <==> path in paths
      {
        assert sources[..i + 1][..i] == sources[..i];
        if sources[i] !in seen {
          seen := seen + {sources[i]};
          paths := paths + [sources[i]];
        }
      }
      assert sources[..|sources|] == sources;
      WatchSetTracks(entry, sources);
      hide Tracks;
      world := world.(watchSlot := Some(paths));
    }

    method Release(waiter: nat)
      modifies this`world
      ensures world == Releasing(old(world), waiter)
    {
      world := world.(released := world.released + [Ack(waiter, world.descriptor, world.buildDirectory, world.live)]);
    }

    /** Removes every trace of the session, and only then releases the waiters: none
        of them can still see the descriptor or the build directory. */
    method FinishShutdown()
      modifies this
      ensures State() == AfterFinishShutdown(old(State()))
      ensures |world.released| == |old(world).released| + |old(stopWaiters)|
      ensures forall i :: |old(world).released| <= i < |world.released| ==>
        var ack := world.released[i];
        !ack.descriptor && !ack.buildDirectory && ack.live == old(world).live
    {
      RemoveCandidate(currentBinary);
      world := world.(descriptor := false);
      world := world.(buildDirectory := false, binaries := {});
      ghost var cleared := world;
      for i := 0 to |stopWaiters|
        invariant stopWaiters == old(stopWaiters)
        invariant State() == old(State()).(world :=
          cleared.(released := old(world).released + AcksOf(stopWaiters[..i], old(world).live)))
      {
        Release(stopWaiters[i]);
      }
      assert stopWaiters[..|stopWaiters|] == stopWaiters;
      stopWaiters := [];
      returned := true;
    }

    method StartChild(binary: Binary, started: bool)
      modifies this
      ensures State() == AfterReplaceChild(old(State()), binary, started)
    {
      if child.Some? {
        StopDevChild();
        RemoveCandidate(currentBinary);
      }
      childGeneration := childGeneration + 1;
      if !started {
        child, currentBinary := None, NoBinary;
      } else {
        world := world.(live := world.live + {childGeneration});
        child, currentBinary := Some(childGeneration), binary;
        world := world.(descriptor := true);
      }
    }

    method HandleBuildFinished(result: BuildResult, answers: Answers)
      modifies this
      ensures State() == AfterBuildFinished(old(State()), result, answers)
    {
      hide AfterReplaceChild, AfterFinishShutdown, AfterStartBuild, WatchSet, Removed;
      building := false;
      if shuttingDown {
        RemoveCandidate(result.binary);
        assert State() == Discarding(old(State()), result);
        FinishShutdown();
        return;
      }
      UpdateWatchSet(result.sources);
      assert State() == Watched(old(State()), result.sources);
      if result.ok {
        if !webAnnounced && result.web {
          if !answers.webAllowed {
            RemoveCandidate(result.binary);
            shuttingDown := true;
            exitStatus := 1;
            assert State() == Refused(old(State()), result);
            FinishShutdown();
            return;
          }
          webAnnounced := true;
        }
        StartChild(result.binary, answers.started);
      } else {
        RemoveCandidate(result.binary);
      }
      assert State() == Settled(old(State()), result, answers);
      if pendingRebuild {
        pendingRebuild := false;
        StartBuild();
      }
    }

    method HandleStop(waiter: Option<nat>)
      modifies this
      ensures State() == AfterStop(old(State()), waiter)
    {
      hide AfterFinishShutdown, Removed, Stopped;
      shuttingDown := true;
      if waiter.Some? {
        stopWaiters := stopWaiters + [waiter.value];
      }
      if child.Some? {
        StopDevChild();
        RemoveCandidate(currentBinary);
        child, currentBinary := None, NoBinary;
      }
      assert State() == Stopping(old(State()), waiter);
      if !building {
        FinishShutdown();
      }
    }

    /** One turn of the event loop. */
    method Handle(event: Event, answers: Answers)
      requires !returned
      modifies this
      ensures State() == Handled(old(State()), event, answers)
    {
      match event {
        case SourceChanged =>
          if shuttingDown {
            return;
          }
          if building {
            pendingRebuild := true;
            return;
          }
          StartBuild();

        case BuildFinished(result) =>
          HandleBuildFinished(result, answers);

        case ChildExited(generation) =>
          if generation != childGeneration || child.None? {
            return;
          }
          child, currentBinary := None, NoBinary;

        case StopRequested(_, waiter) =>
          HandleStop(waiter);
      }
    }
  }

  /** The state at the first loop head. */
  function FirstState(entry: Path): Dev {
    AfterStartBuild(Dev(entry, false, false, false, None, 0, 0, NoBinary, [], false, 0, false,
                        World({}, {}, {}, {}, true, true, [], None)))
  }

  // ---- what one event can do -------------------------------------------------

  /** A build starts exactly on a change met at rest, or when a build that left
      a rebuild waiting comes back to a session that goes on. */
  predicate StartsBuild(d: Dev, event: Event, answers: Answers) {
    && !d.shuttingDown
    && ((event.SourceChanged? && !d.building)
        || (event.BuildFinished? && d.pendingRebuild && !Refuses(d, event, answers)))
  }

  lemma HandledBuilds(d: Dev, event: Event, answers: Answers)
    ensures var h := Handled(d, event, answers);
            if StartsBuild(d, event, answers) then
              h.building && h.buildGeneration == d.buildGeneration + 1
              && h.world.builds == d.world.builds + {h.buildGeneration} && (event.BuildFinished? ==> !h.pendingRebuild)
            else
              h.building == (d.building && !event.BuildFinished?) && h.buildGeneration == d.buildGeneration
              && h.world.builds == d.world.builds
  {
    hide WatchSet, Removed;
    if event.BuildFinished? {
      SettledKeeps(d, event.result, answers);
      hide Settled;
    }
  }

  lemma SettledKeeps(d: Dev, result: BuildResult, answers: Answers)
    ensures var h := Settled(d, result, answers);
            && !h.building && h.buildGeneration == d.buildGeneration && h.world.builds == d.world.builds
            && h.pendingRebuild == d.pendingRebuild && h.shuttingDown == d.shuttingDown
            && h.stopWaiters == d.stopWaiters && h.world.released == d.world.released
            && h.returned == d.returned && h.exitStatus == d.exitStatus && h.entry == d.entry
            && h.world.watchSlot == Some(WatchSet(d.entry, result.sources))
  {
    hide WatchSet, Removed;
  }

  /** The loop ends exactly when a stop meets it idle, a build comes back to a
      stopped session, or the web configuration is refused. */
  predicate Ends(d: Dev, event: Event, answers: Answers) {
    || (event.StopRequested? && !d.building)
    || (event.BuildFinished? && d.shuttingDown)
    || Refuses(d, event, answers)
  }

  lemma HandledFlags(d: Dev, event: Event, answers: Answers)
    requires !d.returned
    ensures var h := Handled(d, event, answers);
            && h.returned == Ends(d, event, answers)
            && h.shuttingDown == (d.shuttingDown || event.StopRequested? || Refuses(d, event, answers))
            && h.exitStatus == (if Refuses(d, event, answers) then 1 else d.exitStatus)
            && (h.pendingRebuild ==> d.pendingRebuild || (event.SourceChanged? && d.building))
            && (event.SourceChanged? && d.building && !d.shuttingDown ==> h.pendingRebuild)
            && (d.pendingRebuild && !h.pendingRebuild ==> StartsBuild(d, event, answers))
            && h.entry == d.entry
  {
    hide WatchSet, AcksOf, Removed, Settled;
    if event.BuildFinished? {
      SettledKeeps(d, event.result, answers);
    }
  }

  /** The child after one event: stopped by a stop, forgotten on its own exit,
      replaced by a good build of a session that goes on, and otherwise kept. */
  lemma HandledChild(d: Dev, event: Event, answers: Answers)
    ensures var h, w := Handled(d, event, answers), d.world;
            if event.BuildFinished? && event.result.ok && !d.shuttingDown && !Refuses(d, event, answers) then
              h.childGeneration == d.childGeneration + 1
              && h.child == (if answers.started then Some(h.childGeneration) else None)
              && h.currentBinary == (if answers.started then event.result.binary else NoBinary)
              && h.world.live == Stopped(w, d.child).live + (if answers.started then {h.childGeneration} else {})
              && h.world.exiting == Stopped(w, d.child).exiting
            else if event.StopRequested? then
              h.childGeneration == d.childGeneration && h.child == None
              && h.currentBinary == (if d.child.Some? then NoBinary else d.currentBinary)
              && h.world.live == Stopped(w, d.child).live && h.world.exiting == Stopped(w, d.child).exiting
            else
              h.childGeneration == d.childGeneration && h.world.live == w.live && h.world.exiting == w.exiting
              && (if event.ChildExited? && d.child.Some? && event.generation == d.childGeneration then
                    h.child == None && h.currentBinary == NoBinary
                  else
                    h.child == d.child && h.currentBinary == d.currentBinary)
  {
    hide WatchSet;
  }

  /** Stopping a child takes that one process, if it is alive, and no other. */
  lemma StoppedTakesOne(w: World, child: Option<nat>)
    ensures var stopped := Stopped(w, child);
            && stopped == w.(live := stopped.live, exiting := stopped.exiting)
            && (forall g :: g in stopped.live <==> g in w.live && child != Some(g))
            && (forall g :: g in stopped.exiting <==> g in w.exiting || (g in w.live && child == Some(g)))
  {
  }

  /** The configuration counts as checked from the first good web build on that a
      session going on accepts. */
  lemma HandledWeb(d: Dev, event: Event, answers: Answers)
    ensures Handled(d, event, answers).webAnnounced <==>
              || d.webAnnounced
              || (event.BuildFinished? && !d.shuttingDown && event.result.ok && event.result.web && answers.webAllowed)
  {
    hide WatchSet, Removed, Stopped, AcksOf;
  }

  /** The candidate one event removes from the build directory: that of the
      child it stops, or that of a failed build. */
  function Discarded(d: Dev, event: Event): set<Binary> {
    if event.BuildFinished? && !event.result.ok then {event.result.binary}
    else if (event.BuildFinished? || event.StopRequested?) && d.child.Some? then {d.currentBinary}
    else {}
  }

  lemma HandledFiles(d: Dev, event: Event, answers: Answers)
    requires NoBinary !in d.world.binaries
    ensures var h, w := Handled(d, event, answers).world, d.world;
            if Ends(d, event, answers) then
              h.binaries == {} && !h.descriptor && !h.buildDirectory
            else
              && h.binaries == w.binaries - Discarded(d, event)
              && h.buildDirectory == w.buildDirectory
              && (w.descriptor ==> h.descriptor)
  {
    hide WatchSet;
    match event {
      case BuildFinished(result) =>
        SettledFiles(d, result, answers);
      case _ =>
    }
  }

  lemma SettledFiles(d: Dev, result: BuildResult, answers: Answers)
    requires NoBinary !in d.world.binaries
    ensures var h, w := Settled(d, result, answers).world, d.world;
            && h.binaries == w.binaries - Discarded(d, BuildFinished(result))
            && h.buildDirectory == w.buildDirectory
            && (w.descriptor ==> h.descriptor)
  {
    hide WatchSet, Removed;
    var watched := Watched(d, result.sources).world;
    RemovedFiles(watched, result.binary);
    RemovedFiles(Stopped(watched, d.child), d.currentBinary);
  }

  lemma RemovedFiles(w: World, binary: Binary)
    requires NoBinary !in w.binaries
    ensures Removed(w, binary).binaries == w.binaries - {binary}
  {
  }

  /** Waiters are released, all of them and in order, exactly when the loop ends, and
      then without files and with the processes of the end. */
  lemma HandledWaiters(d: Dev, event: Event, answers: Answers)
    ensures var h := Handled(d, event, answers);
            var taken := d.stopWaiters +
                (if event.StopRequested? && event.waiter.Some? then [event.waiter.value] else []);
            if Ends(d, event, answers) then
              h.stopWaiters == [] && h.world.released == d.world.released + AcksOf(taken, h.world.live)
            else
              h.stopWaiters == taken && h.world.released == d.world.released
  {
    hide WatchSet, AcksOf, Removed, Settled;
    if event.BuildFinished? {
      SettledKeeps(d, event.result, answers);
    }
  }

  lemma HandledWatchSlot(d: Dev, event: Event, answers: Answers)
    ensures var h := Handled(d, event, answers);
            h.world.watchSlot == if event.BuildFinished? && !d.shuttingDown then
                                   Some(WatchSet(d.entry, event.result.sources))
                                 else
                                   d.world.watchSlot
  {
    hide WatchSet, AcksOf, Removed, Settled;
    if event.BuildFinished? {
      SettledKeeps(d, event.result, answers);
    }
  }
}
