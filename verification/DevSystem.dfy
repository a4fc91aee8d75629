/** A whole `ahdcode dev` session: the controller's loop, its event queue, the
    build goroutine, the processes it starts, the stop requests and the file
    watcher, interleaved in every possible way. */
module DevSystem {
  import opened DevController
  import opened DevWatcher
  import opened Options

  const CAPACITY: nat := 8

  /** History marks: a poll saw a change; a build started. */
  datatype Mark = Observed | Started

  datatype System = System(
    dev: Dev,
    queue: seq<Event>,
    watcher: Watcher,
    clock: nat,
    requests: nat,           // stop requests made so far
    consumed: seq<nat>,      // stop requests the loop has taken, in order
    latest: seq<DevController.Path>,  // the path set of the last build attempt
    log: seq<Mark>)

  datatype Step =
    | Consume(answers: Answers)
    | BuildCompletes(generation: nat, result: BuildResult)
    | ProcessExits(child: nat)
    | ExitReported(child: nat)
    | StopArrives(force: bool)
    | PathsApplied(disk: Disk)
    | Tick(now: nat, disk: Disk)
    | ChangeSent

  ghost predicate Enabled(s: System, step: Step) {
    match step
    case Consume(answers) =>
      && !s.dev.returned && s.queue != []
      && (s.queue[0].BuildFinished? && answers.started ==> s.queue[0].result.binary in s.dev.world.binaries)
    case BuildCompletes(generation, result) =>
      && generation in s.dev.world.builds && |s.queue| < CAPACITY
      && (result.binary == NoBinary || result.binary == Candidate(generation))
    case ProcessExits(child) => child in s.dev.world.live
    case ExitReported(child) => child in s.dev.world.exiting
    case StopArrives(_) => |s.queue| < CAPACITY
    case PathsApplied(_) => !s.watcher.sending && s.dev.world.watchSlot.Some?
    case Tick(now, _) => !s.watcher.sending && s.clock <= now
    case ChangeSent => s.watcher.sending && |s.queue| < CAPACITY
  }

  function OnWorld(s: System, world: World): System {
    s.(dev := s.dev.(world := world))
  }

  ghost function Next(s: System, step: Step): System
    requires Enabled(s, step)
  {
    var w := s.dev.world;
    match step
    case Consume(answers) =>
      var event := s.queue[0];
      var dev := Handled(s.dev, event, answers);
      s.(dev := dev,
         queue := s.queue[1..],
         consumed := s.consumed + (if event.StopRequested? && event.waiter.Some? then [event.waiter.value] else []),
         latest := if event.BuildFinished? && !s.dev.shuttingDown then WatchSet(s.dev.entry, event.result.sources)
                   else s.latest,
         log := s.log + (if dev.buildGeneration > s.dev.buildGeneration then [Started] else []))
    case BuildCompletes(generation, result) =>
      OnWorld(s, w.(builds := w.builds - {generation},
                    binaries := w.binaries + (if result.binary == NoBinary then {} else {result.binary})))
        .(queue := s.queue + [BuildFinished(result)])
    case ProcessExits(child) =>
      OnWorld(s, w.(live := w.live - {child}, exiting := w.exiting + {child}))
    case ExitReported(child) =>
      // The report is dropped when the queue is full.
      OnWorld(s, w.(exiting := w.exiting - {child}))
        .(queue := if |s.queue| < CAPACITY then s.queue + [ChildExited(child)] else s.queue)
    case StopArrives(force) =>
      s.(queue := s.queue + [StopRequested(force, Some(s.requests))], requests := s.requests + 1)
    case PathsApplied(disk) =>
      OnWorld(s, w.(watchSlot := None))
        .(watcher := s.watcher.(snapshots := PathSet(s.watcher.snapshots, w.watchSlot.value, disk)))
    case Tick(now, disk) =>
      s.(watcher := Ticked(s.watcher, now, disk),
         clock := now,
         log := s.log + (if Changed(s.watcher.snapshots, disk) then [Observed] else []))
    case ChangeSent =>
      s.(watcher := s.watcher.(sending := false), queue := s.queue + [SourceChanged])
  }

  ghost predicate Initial(s: System) {
    && s.dev == FirstState(s.dev.entry)
    && s.queue == [] && s.requests == 0 && s.consumed == [] && s.log == [Started]
    && s.latest == [s.dev.entry]
    && s.watcher.snapshots.Keys == {s.dev.entry} && s.watcher.changedAt == None && !s.watcher.sending
  }

  // ---- the invariant ---------------------------------------------------------

  /** The results of finished builds still in the queue. */
  function Finished(queue: seq<Event>): seq<BuildResult> {
    if queue == [] then [] else
      (if queue[0].BuildFinished? then [queue[0].result] else []) + Finished(queue[1..])
  }

  /** At most one build is in flight, from its start until its result is taken
      from the queue, and `building` says so. */
  ghost predicate OneBuild(s: System) {
    var d, finished := s.dev, Finished(s.queue);
    if d.building then
      || (d.world.builds == {d.buildGeneration} && finished == [])
      || (d.world.builds == {} && |finished| == 1
          && (finished[0].binary == NoBinary || finished[0].binary == Candidate(d.buildGeneration)))
    else
      d.world.builds == {} && finished == []
  }

  /** The flags: a rebuild waits only for a build, and a stopped session waits
      only for a build, without a child. */
  ghost predicate Flags(s: System) {
    var d := s.dev;
    && (d.pendingRebuild && !d.returned ==> d.building)
    && (d.shuttingDown && !d.returned ==> d.building && d.child.None?)
    && (d.returned ==> d.shuttingDown && !d.building)
  }

  /** Every live process is the controller's child, and a reported exit is the
      exit of a process that is gone. */
  ghost predicate OwnProcesses(s: System) {
    var d := s.dev;
    && (d.child.Some? ==> d.child.value == d.childGeneration)
    && (forall g :: g in d.world.live ==> d.child == Some(g))
    && (forall g :: g in d.world.exiting ==> g <= d.childGeneration && g !in d.world.live)
    && (forall i :: 0 <= i < |s.queue| && s.queue[i].ChildExited? ==>
          s.queue[i].generation <= d.childGeneration && s.queue[i].generation !in d.world.live)
  }

  /** The running child's binary is in place, and is never the candidate of the
      build in flight; nothing is left behind after the end. */
  ghost predicate Binaries(s: System) {
    var d := s.dev;
    && (d.child.None? <==> d.currentBinary == NoBinary)
    && NoBinary !in d.world.binaries
    && (d.child.Some? ==> d.currentBinary.generation <= d.buildGeneration)
    && (d.child.Some? && d.building ==> d.currentBinary.generation < d.buildGeneration)
    && (d.child.Some? && !d.returned ==> d.currentBinary in d.world.binaries)
    && (d.world.descriptor <==> !d.returned)
    && (d.world.buildDirectory <==> !d.returned)
  }

  /** Requests in the queue are new ones, each there once. */
  ghost predicate FreshWaiters(s: System) {
    && (forall i :: 0 <= i < |s.queue| && s.queue[i].StopRequested? && s.queue[i].waiter.Some? ==>
          s.queue[i].waiter.value < s.requests && s.queue[i].waiter.value !in s.consumed)
    && (forall i, j ::
          0 <= i < j < |s.queue| && s.queue[i].StopRequested? && s.queue[j].StopRequested?
          && s.queue[i].waiter.Some? ==>
          s.queue[i].waiter != s.queue[j].waiter)
  }

  function WaitersOf(released: seq<Ack>): (waiters: seq<nat>)
    ensures |waiters| == |released| && forall i :: 0 <= i < |released| ==> waiters[i] == released[i].waiter
  {
    seq(|released|, i requires 0 <= i < |released| => released[i].waiter)
  }

  /** A release that came when the session was gone: files removed, no process left. */
  predicate Late(ack: Ack) {
    !ack.descriptor && !ack.buildDirectory && ack.live == {}
  }

  /** Every stop request taken is released exactly once, in order, and only when
      the session is gone. */
  ghost predicate Acknowledged(s: System) {
    var d := s.dev;
    && s.consumed == WaitersOf(d.world.released) + d.stopWaiters
    && (forall i :: 0 <= i < |d.world.released| ==> Late(d.world.released[i]))
    && (forall i :: 0 <= i < |s.consumed| ==> s.consumed[i] < s.requests)
    && (forall i, j :: 0 <= i < j < |s.consumed| ==> s.consumed[i] != s.consumed[j])
    && (d.returned ==> d.stopWaiters == [])
    && (d.world.released != [] ==> d.returned)
    && (s.consumed != [] ==> d.shuttingDown)
    && (d.shuttingDown && (s.consumed != [] || d.exitStatus == 0) ==> d.child.None?)
  }

  /** The watcher follows the last build attempt's path set, and always the entry. */
  ghost predicate Watches(s: System) {
    && s.dev.entry in s.latest && s.dev.entry in s.watcher.snapshots
    && match s.dev.world.watchSlot
       case Some(paths) => paths == s.latest
       case None => forall path :: path in s.watcher.snapshots <==> path in s.latest
  }

  /** A change that has been seen and has not yet started a build. */
  ghost predicate ChangeOnItsWay(s: System) {
    s.watcher.changedAt.Some? || s.watcher.sending || SourceChanged in s.queue || s.dev.pendingRebuild
  }

  ghost predicate StartedAfter(log: seq<Mark>, i: nat) {
    exists j :: i < j < |log| && log[j] == Started
  }

  /** No observed change is lost: until a build starts after it, it is on its way. */
  ghost predicate NoLostChange(s: System) {
    !s.dev.shuttingDown && !ChangeOnItsWay(s) ==>
      forall i :: 0 <= i < |s.log| && s.log[i] == Observed ==> StartedAfter(s.log, i)
  }

  ghost predicate Invariant(s: System) {
    && OneBuild(s) && Flags(s) && OwnProcesses(s) && Binaries(s) && FreshWaiters(s) && Acknowledged(s)
    && Watches(s) && NoLostChange(s)
  }

  lemma InitialInvariant(s: System)
    requires Initial(s)
    ensures Invariant(s)
  {
  }

  lemma {:induction false} FinishedAppend(queue: seq<Event>, event: Event)
    ensures Finished(queue + [event]) == Finished(queue) + (if event.BuildFinished? then [event.result] else [])
  {
    if queue != [] {
      assert (queue + [event])[1..] == queue[1..] + [event];
      FinishedAppend(queue[1..], event);
    } else {
      assert (queue + [event])[1..] == [];
    }
  }

  lemma StartedPersists(log: seq<Mark>, marks: seq<Mark>, i: nat)
    requires StartedAfter(log, i)
    ensures StartedAfter(log + marks, i)
  {
    var j :| i < j < |log| && log[j] == Started;
    assert (log + marks)[j] == Started;
  }

  lemma KeepsOneBuild(s: System, step: Step)
    requires OneBuild(s) && Flags(s) && Enabled(s, step)
    ensures OneBuild(Next(s, step))
  {
    hide Handled, PathSet, Ticked, Changed;
    match step {
      case Consume(answers) =>
        HandledBuilds(s.dev, s.queue[0], answers);
        assert Finished(s.queue) == (if s.queue[0].BuildFinished? then [s.queue[0].result] else [])
                                  + Finished(s.queue[1..]);
      case BuildCompletes(generation, result) =>
        FinishedAppend(s.queue, BuildFinished(result));
      case ExitReported(child) =>
        FinishedAppend(s.queue, ChildExited(child));
      case StopArrives(force) =>
        FinishedAppend(s.queue, StopRequested(force, Some(s.requests)));
      case ChangeSent =>
        FinishedAppend(s.queue, SourceChanged);
      case _ =>
    }
  }

  lemma KeepsFlags(s: System, step: Step)
    requires OneBuild(s) && Flags(s) && Enabled(s, step)
    ensures Flags(Next(s, step))
  {
    hide Handled, PathSet, Ticked, Changed;
    if step.Consume? {
      HandledBuilds(s.dev, s.queue[0], step.answers);
      HandledFlags(s.dev, s.queue[0], step.answers);
      HandledChild(s.dev, s.queue[0], step.answers);
      assert Finished(s.queue) == (if s.queue[0].BuildFinished? then [s.queue[0].result] else [])
                                + Finished(s.queue[1..]);
    }
  }

  lemma KeepsOwnProcesses(s: System, step: Step)
    requires OwnProcesses(s) && Enabled(s, step)
    ensures OwnProcesses(Next(s, step))
  {
    hide Handled, PathSet, Ticked, Changed;
    if step.Consume? {
      HandledChild(s.dev, s.queue[0], step.answers);
    }
  }

  lemma KeepsBinaries(s: System, step: Step)
    requires OneBuild(s) && Flags(s) && Binaries(s) && Enabled(s, step)
    ensures Binaries(Next(s, step))
  {
    hide Handled, PathSet, Ticked, Changed;
    if step.Consume? {
      assert Finished(s.queue) == (if s.queue[0].BuildFinished? then [s.queue[0].result] else [])
                                + Finished(s.queue[1..]);
      HandledBuilds(s.dev, s.queue[0], step.answers);
      HandledFlags(s.dev, s.queue[0], step.answers);
      HandledChild(s.dev, s.queue[0], step.answers);
      HandledFiles(s.dev, s.queue[0], step.answers);
    }
  }

  lemma KeepsFreshWaiters(s: System, step: Step)
    requires FreshWaiters(s) && Acknowledged(s) && Enabled(s, step)
    ensures FreshWaiters(Next(s, step))
  {
    if step.Consume? {
      ConsumeKeepsFresh(s, step);
    } else if step.StopArrives? {
      hide Handled, PathSet, Ticked, Changed, Late, WaitersOf;
    } else {
      hide Handled, PathSet, Ticked, Changed, Acknowledged;
    }
  }

  lemma ConsumeKeepsFresh(s: System, step: Step)
    requires FreshWaiters(s) && Enabled(s, step) && step.Consume?
    ensures FreshWaiters(Next(s, step))
  {
    hide Handled, WatchSet;
    var t := Next(s, step);
    forall i | 0 <= i < |t.queue| && t.queue[i].StopRequested? && t.queue[i].waiter.Some?
      ensures t.queue[i].waiter.value < t.requests && t.queue[i].waiter.value !in t.consumed
    {
      var k := i + 1;
      assert s.queue[k] == t.queue[i];
      assert s.queue[0].StopRequested? ==> s.queue[0].waiter != s.queue[k].waiter;
    }
    forall i, j | 0 <= i < j < |t.queue| && t.queue[i].StopRequested? && t.queue[j].StopRequested?
                  && t.queue[i].waiter.Some?
      ensures t.queue[i].waiter != t.queue[j].waiter
    {
      var k, l := i + 1, j + 1;
      assert s.queue[k] == t.queue[i] && s.queue[l] == t.queue[j];
    }
  }

  lemma KeepsAcknowledged(s: System, step: Step)
    requires Flags(s) && OwnProcesses(s) && FreshWaiters(s) && Acknowledged(s) && Enabled(s, step)
    ensures Acknowledged(Next(s, step))
  {
    if step.Consume? {
      ConsumeKeepsAcknowledged(s, step);
    } else {
      hide Handled, PathSet, Ticked, Changed, Flags, FreshWaiters, OwnProcesses, Acknowledged;
      OutsideKeepsAcknowledged(s, Next(s, step));
    }
  }

  /** Nothing outside the loop touches what the loop has taken and released. */
  lemma OutsideKeepsAcknowledged(s: System, t: System)
    requires Acknowledged(s) && t.consumed == s.consumed && s.requests <= t.requests
    requires t.dev == s.dev.(world := t.dev.world) && t.dev.world.released == s.dev.world.released
    ensures Acknowledged(t)
  {
    hide Late, WaitersOf;
  }

  lemma ConsumeKeepsAcknowledged(s: System, step: Step)
    requires Flags(s) && OwnProcesses(s) && FreshWaiters(s) && Acknowledged(s) && Enabled(s, step) && step.Consume?
    ensures Acknowledged(Next(s, step))
  {
    hide Handled, PathSet, Ticked, Changed;
    HandledFlags(s.dev, s.queue[0], step.answers);
    HandledChild(s.dev, s.queue[0], step.answers);
    HandledWaiters(s.dev, s.queue[0], step.answers);
    ReleasesAreLate(s, step);
  }

  /** Whoever is released by an event finds no process: a stop has ended the child, and
      a refusal has nobody to release. */
  lemma ReleasesAreLate(s: System, step: Step)
    requires Flags(s) && OwnProcesses(s) && Acknowledged(s) && Enabled(s, step) && step.Consume?
    ensures var released := Next(s, step).dev.world.released;
            && (forall i :: 0 <= i < |released| ==> Late(released[i]))
            && WaitersOf(released) + Next(s, step).dev.stopWaiters == Next(s, step).consumed
  {
    hide Handled, PathSet, Ticked, Changed;
    HandledFlags(s.dev, s.queue[0], step.answers);
    HandledChild(s.dev, s.queue[0], step.answers);
    HandledWaiters(s.dev, s.queue[0], step.answers);
  }

  lemma KeepsWatches(s: System, step: Step)
    requires Flags(s) && Watches(s) && Enabled(s, step)
    ensures Watches(Next(s, step))
  {
    hide Handled, Changed, WatchSet;
    if step.Consume? {
      HandledFlags(s.dev, s.queue[0], step.answers);
      HandledWatchSlot(s.dev, s.queue[0], step.answers);
      if s.queue[0].BuildFinished? {
        WatchSetTracks(s.dev.entry, s.queue[0].result.sources);
      }
    }
  }

  lemma KeepsNoLostChange(s: System, step: Step)
    requires Flags(s) && NoLostChange(s) && Enabled(s, step)
    ensures NoLostChange(Next(s, step))
  {
    hide Handled, PathSet, Changed;
    var t := Next(s, step);
    if step.Consume? {
      HandledFlags(s.dev, s.queue[0], step.answers);
      HandledBuilds(s.dev, s.queue[0], step.answers);
    }
    if !t.dev.shuttingDown && !ChangeOnItsWay(t) {
      forall i | 0 <= i < |t.log| && t.log[i] == Observed
        ensures StartedAfter(t.log, i)
      {
        if t.dev.buildGeneration > s.dev.buildGeneration {
          assert t.log[|t.log| - 1] == Started;
        } else {
          assert t.log == s.log + t.log[|s.log|..];
          assert !ChangeOnItsWay(s);
          assert i < |s.log|;
          StartedPersists(s.log, t.log[|s.log|..], i);
        }
      }
    }
  }

  /** Every step of every component keeps the invariant. */
  lemma StepKeepsInvariant(s: System, step: Step)
    requires Invariant(s) && Enabled(s, step)
    ensures Invariant(Next(s, step))
  {
    hide OneBuild, Flags, OwnProcesses, Binaries, FreshWaiters, Acknowledged, Watches, NoLostChange, Next, Enabled;
    KeepsOneBuild(s, step);
    KeepsFlags(s, step);
    KeepsOwnProcesses(s, step);
    KeepsBinaries(s, step);
    KeepsFreshWaiters(s, step);
    KeepsAcknowledged(s, step);
    KeepsWatches(s, step);
    KeepsNoLostChange(s, step);
  }

  // ---- whole runs ------------------------------------------------------------

  ghost predicate IsRun(run: seq<System>, steps: seq<Step>) {
    && |run| == |steps| + 1 && Initial(run[0])
    && forall i :: 0 <= i < |steps| ==> Enabled(run[i], steps[i]) && run[i + 1] == Next(run[i], steps[i])
  }

  /** The invariant holds at every point of every run. */
  lemma {:induction false} RunsAreSafe(run: seq<System>, steps: seq<Step>, k: nat)
    requires IsRun(run, steps) && k < |run|
    ensures Invariant(run[k])
  {
    if k == 0 {
      InitialInvariant(run[0]);
    } else {
      RunsAreSafe(run, steps, k - 1);
      StepKeepsInvariant(run[k - 1], steps[k - 1]);
    }
  }

  /** Once shutdown has begun, no build and no child ever starts. */
  lemma {:induction false} ShutdownIsFinal(run: seq<System>, steps: seq<Step>, i: nat, j: nat)
    requires IsRun(run, steps) && i <= j < |run| && run[i].dev.shuttingDown
    ensures run[j].dev.shuttingDown
    ensures run[j].dev.buildGeneration == run[i].dev.buildGeneration
    ensures run[j].dev.world.builds <= run[i].dev.world.builds
    ensures run[j].dev.childGeneration == run[i].dev.childGeneration && run[j].dev.world.live <= run[i].dev.world.live
    decreases j
  {
    hide Next, Enabled, IsRun;
    if i < j {
      RunStep(run, steps, j - 1);
      ShutdownIsFinal(run, steps, i, j - 1);
      ShutdownStep(run[j - 1], steps[j - 1]);
    }
  }

  lemma RunStep(run: seq<System>, steps: seq<Step>, k: nat)
    requires IsRun(run, steps) && k + 1 < |run|
    ensures k < |steps| && Enabled(run[k], steps[k]) && run[k + 1] == Next(run[k], steps[k])
  {
  }

  lemma ShutdownStep(s: System, step: Step)
    requires s.dev.shuttingDown && Enabled(s, step)
    ensures Next(s, step).dev.shuttingDown
    ensures Next(s, step).dev.buildGeneration == s.dev.buildGeneration
    ensures Next(s, step).dev.childGeneration == s.dev.childGeneration
    ensures Next(s, step).dev.world.builds <= s.dev.world.builds
    ensures Next(s, step).dev.world.live <= s.dev.world.live
  {
    hide Handled, PathSet, Ticked, Changed;
    if step.Consume? {
      HandledFlags(s.dev, s.queue[0], step.answers);
      HandledBuilds(s.dev, s.queue[0], step.answers);
      HandledChild(s.dev, s.queue[0], step.answers);
    }
  }

  /** A failed build leaves the running child, its generation, its process and
      its binary as they were. */
  lemma FailedBuildKeepsChild(run: seq<System>, steps: seq<Step>, k: nat)
    requires IsRun(run, steps) && k < |steps| && steps[k].Consume?
    requires run[k].queue[0].BuildFinished? && !run[k].queue[0].result.ok
    ensures var s, t := run[k].dev, run[k + 1].dev;
            && t.child == s.child && t.childGeneration == s.childGeneration && t.currentBinary == s.currentBinary
            && t.world.live == s.world.live
            && (s.child.Some? && !t.returned ==> t.currentBinary in t.world.binaries)
  {
    RunsAreSafe(run, steps, k);
    KeepsBinaries(run[k], steps[k]);
    HandledChild(run[k].dev, run[k].queue[0], steps[k].answers);
    hide Handled;
  }

  /** An exit report of an older generation changes nothing, and one that makes
      the controller forget its child is about a process that is gone. */
  lemma ExitReports(run: seq<System>, steps: seq<Step>, k: nat)
    requires IsRun(run, steps) && k < |steps| && steps[k].Consume? && run[k].queue[0].ChildExited?
    ensures var s, t := run[k].dev, run[k + 1].dev;
            && (run[k].queue[0].generation < s.childGeneration ==> t == s)
            && (t.child != s.child ==> s.child.Some? && s.child.value !in s.world.live)
  {
    RunsAreSafe(run, steps, k);
  }

  /** Whenever a stop request was released, the descriptor, the build directory and
      every process were gone already; it was taken from the queue and is released once,
      and by then the session's loop and its builds have ended. */
  lemma ReleasedWhenGone(run: seq<System>, steps: seq<Step>, k: nat, i: nat)
    requires IsRun(run, steps) && k < |run| && i < |run[k].dev.world.released|
    ensures var s := run[k];
            var ack := s.dev.world.released[i];
            && !ack.descriptor && !ack.buildDirectory && ack.live == {}
            && s.dev.returned && s.dev.world.live == {} && s.dev.world.builds == {}
            && !s.dev.world.descriptor && !s.dev.world.buildDirectory
            && WaitersOf(s.dev.world.released) == s.consumed
            && (forall j :: 0 <= j < |s.dev.world.released| && j != i ==> s.dev.world.released[j].waiter != ack.waiter)
  {
    RunsAreSafe(run, steps, k);
    var released, consumed := run[k].dev.world.released, run[k].consumed;
    assert WaitersOf(released) == consumed;
    forall j | 0 <= j < |released| && j != i
      ensures released[j].waiter != released[i].waiter
    {
      assert consumed[j] == released[j].waiter && consumed[i] == released[i].waiter;
    }
  }

  /** A stopped session ends at its first idle point: it waits for the build in
      flight and for nothing else. */
  lemma StoppedWaitsForBuild(run: seq<System>, steps: seq<Step>, k: nat)
    requires IsRun(run, steps) && k < |run| && run[k].dev.shuttingDown && !run[k].dev.returned
    ensures run[k].dev.building
    ensures run[k].dev.world.builds == {} ==>
              Drained(run[k], |run[k].queue|).dev.returned
              && run[k].consumed <= WaitersOf(Drained(run[k], |run[k].queue|).dev.world.released)
  {
    RunsAreSafe(run, steps, k);
    if run[k].dev.world.builds == {} {
      DrainEnds(run[k], |run[k].queue|);
    }
  }

  /** The loop takes up to n events while nothing else happens. */
  ghost function Drained(s: System, n: nat): System
    decreases n
  {
    if n == 0 || s.dev.returned || s.queue == [] then s
    else Drained(Next(s, Consume(Answers(false, false))), n - 1)
  }

  lemma {:induction false} DrainEnds(s: System, n: nat)
    requires Invariant(s) && s.dev.shuttingDown && s.dev.world.builds == {} && |s.queue| <= n
    ensures Drained(s, n).dev.returned && s.consumed <= WaitersOf(Drained(s, n).dev.world.released)
    decreases n
  {
    if !s.dev.returned {
      var step := Consume(Answers(false, false));
      assert s.queue != [];
      StepKeepsInvariant(s, step);
      HandledFlags(s.dev, s.queue[0], step.answers);
      HandledBuilds(s.dev, s.queue[0], step.answers);
      DrainEnds(Next(s, step), n - 1);
      hide Handled;
    }
  }

  /** At rest with no change on its way, the last build began after every
      change that was ever observed. */
  lemma RestMeansUpToDate(run: seq<System>, steps: seq<Step>, k: nat, i: nat)
    requires IsRun(run, steps) && k < |run| && !run[k].dev.shuttingDown && !run[k].dev.building
    requires run[k].watcher.changedAt.None? && !run[k].watcher.sending && SourceChanged !in run[k].queue
    requires i < |run[k].log| && run[k].log[i] == Observed
    ensures StartedAfter(run[k].log, i)
  {
    RunsAreSafe(run, steps, k);
  }

  // ---- what is watched, and what is checked ------------------------------------

  /** The loop takes the result of a build while the session goes on. */
  predicate TakesBuild(s: System, step: Step) {
    step.Consume? && s.queue != [] && s.queue[0].BuildFinished? && !s.dev.shuttingDown
  }

  /** The sources of the last build taken before moment k. */
  ghost function SourcesOf(run: seq<System>, steps: seq<Step>, k: nat): seq<DevController.Path>
    requires k <= |steps| < |run|
  {
    if k == 0 then []
    else if TakesBuild(run[k - 1], steps[k - 1]) then run[k - 1].queue[0].result.sources
    else SourcesOf(run, steps, k - 1)
  }

  lemma {:induction false} LatestTracks(run: seq<System>, steps: seq<Step>, k: nat)
    requires IsRun(run, steps) && k < |run|
    ensures run[k].dev.entry == run[0].dev.entry
    ensures Tracks(run[k].latest, run[0].dev.entry, SourcesOf(run, steps, k))
  {
    hide Next, Enabled, IsRun, Initial;
    if k == 0 {
      StartOfRun(run, steps);
    } else {
      LatestTracks(run, steps, k - 1);
      RunStep(run, steps, k - 1);
      LatestStep(run[k - 1], steps[k - 1]);
    }
  }

  lemma StartOfRun(run: seq<System>, steps: seq<Step>)
    requires IsRun(run, steps)
    ensures |run| == |steps| + 1 && run[0].latest == [run[0].dev.entry]
    ensures !run[0].dev.webAnnounced && !run[0].dev.shuttingDown
  {
  }

  lemma LatestStep(s: System, step: Step)
    requires Enabled(s, step)
    ensures Next(s, step).dev.entry == s.dev.entry
    ensures if TakesBuild(s, step) then Tracks(Next(s, step).latest, s.dev.entry, s.queue[0].result.sources)
            else Next(s, step).latest == s.latest
  {
    hide Handled, PathSet, Ticked, Changed, WatchSet, Tracks;
    if step.Consume? {
      HandledFlags(s.dev, s.queue[0], step.answers);
      if s.queue[0].BuildFinished? {
        WatchSetTracks(s.dev.entry, s.queue[0].result.sources);
      }
    }
  }

  /** The watcher tracks exactly the entry and the sources of the last build taken: a
      path set that it has not picked up yet lists them, and once it has, they are what
      it polls. */
  lemma SourcesAreWatched(run: seq<System>, steps: seq<Step>, k: nat)
    requires IsRun(run, steps) && k < |run|
    ensures match run[k].dev.world.watchSlot
            case Some(paths) => Tracks(paths, run[0].dev.entry, SourcesOf(run, steps, k))
            case None => forall path :: path in run[k].watcher.snapshots <==>
                           path == run[0].dev.entry || path in SourcesOf(run, steps, k)
  {
    LatestTracks(run, steps, k);
    RunsAreSafe(run, steps, k);
    hide IsRun, OneBuild, Flags, OwnProcesses, Binaries, FreshWaiters, Acknowledged, NoLostChange, SourcesOf;
  }

  /** A tick after the watcher has its paths observes each edit of a source of the last
      build, and of the entry. */
  lemma SourceEditObserved(run: seq<System>, steps: seq<Step>, k: nat, path: DevController.Path)
    requires IsRun(run, steps) && k < |steps| && steps[k].Tick? && run[k].dev.world.watchSlot.None?
    requires path == run[0].dev.entry || path in SourcesOf(run, steps, k)
    ensures path in run[k].watcher.snapshots
    ensures var before, now := run[k].watcher.snapshots[path], steps[k].disk(path);
            before != now && now != Missing ==>
              run[k + 1].log == run[k].log + [Observed] && run[k + 1].watcher.changedAt == Some(steps[k].now)
  {
    SourcesAreWatched(run, steps, k);
    RunStep(run, steps, k);
    FreshChange(run[k], steps[k], path);
    hide IsRun, SourcesOf;
  }

  lemma FreshChange(s: System, step: Step, path: DevController.Path)
    requires Enabled(s, step) && step.Tick?
    ensures path in s.watcher.snapshots && step.disk(path) !in {Missing, s.watcher.snapshots[path]} ==>
              Next(s, step).log == s.log + [Observed] && Next(s, step).watcher.changedAt == Some(step.now)
  {
    hide Polled;
  }

  /** The loop takes a good build of a web program while the session goes on. */
  predicate TakesWebBuild(s: System, step: Step) {
    TakesBuild(s, step) && s.queue[0].result.ok && s.queue[0].result.web
  }

  ghost predicate WebBuildBefore(run: seq<System>, steps: seq<Step>, k: nat)
    requires k <= |steps| < |run|
  {
    exists j :: 0 <= j < k && TakesWebBuild(run[j], steps[j])
  }

  /** While the session goes on, the configuration has been checked exactly if a good web
      build was taken. */
  lemma {:induction false} CheckedByFirst(run: seq<System>, steps: seq<Step>, k: nat)
    requires IsRun(run, steps) && k < |run| && !run[k].dev.shuttingDown
    ensures run[k].dev.webAnnounced <==> WebBuildBefore(run, steps, k)
  {
    hide Next, Enabled, IsRun, Initial, TakesWebBuild;
    StartOfRun(run, steps);
    if k > 0 {
      RunStep(run, steps, k - 1);
      WebStep(run[k - 1], steps[k - 1]);
      CheckedByFirst(run, steps, k - 1);
      if WebBuildBefore(run, steps, k - 1) {
        var j :| 0 <= j < k - 1 && TakesWebBuild(run[j], steps[j]);
        assert j < k;
      } else if WebBuildBefore(run, steps, k) {
        var j :| 0 <= j < k && TakesWebBuild(run[j], steps[j]);
        assert j == k - 1;
      }
      assert TakesWebBuild(run[k - 1], steps[k - 1]) ==> WebBuildBefore(run, steps, k);
    }
  }

  lemma WebStep(s: System, step: Step)
    requires Enabled(s, step) && !Next(s, step).dev.shuttingDown
    ensures !s.dev.shuttingDown
    ensures Next(s, step).dev.webAnnounced <==> s.dev.webAnnounced || TakesWebBuild(s, step)
  {
    hide Handled, PathSet, Ticked, Changed;
    if step.Consume? {
      HandledFlags(s.dev, s.queue[0], step.answers);
      HandledWeb(s.dev, s.queue[0], step.answers);
    }
  }

  /** A production configuration ends the session, with status 1, at its first good web
      build; later ones go by unchecked. */
  lemma RefusedAtFirst(run: seq<System>, steps: seq<Step>, k: nat)
    requires IsRun(run, steps) && k < |steps| && TakesWebBuild(run[k], steps[k]) && !steps[k].answers.webAllowed
    ensures run[k + 1].dev.returned <==> !WebBuildBefore(run, steps, k)
    ensures run[k + 1].dev.returned ==> run[k + 1].dev.exitStatus == 1
  {
    CheckedByFirst(run, steps, k);
    RunStep(run, steps, k);
    hide Handled, WebBuildBefore, IsRun;
    HandledFlags(run[k].dev, run[k].queue[0], steps[k].answers);
  }

  // ---- processes at the end --------------------------------------------------

  /** The loop leaves a process behind exactly when it ends by refusing the web
      configuration while an earlier build's application runs. */
  lemma LeftBehind(run: seq<System>, steps: seq<Step>, k: nat)
    requires IsRun(run, steps) && k < |steps| && !run[k].dev.returned && run[k + 1].dev.returned
    ensures run[k + 1].dev.world.live != {} <==>
              Refuses(run[k].dev, run[k].queue[0], steps[k].answers) && run[k].dev.world.live != {}
  {
    hide Handled, PathSet, Ticked, Changed;
    RunsAreSafe(run, steps, k);
    StepKeepsInvariant(run[k], steps[k]);
    assert steps[k].Consume?;
    HandledFlags(run[k].dev, run[k].queue[0], steps[k].answers);
    HandledChild(run[k].dev, run[k].queue[0], steps[k].answers);
  }

  lemma Extend(run: seq<System>, steps: seq<Step>, step: Step) returns (longer: seq<System>, more: seq<Step>)
    requires IsRun(run, steps) && Enabled(run[|steps|], step)
    ensures IsRun(longer, more) && longer[|more|] == Next(run[|steps|], step)
  {
    longer, more := run + [Next(run[|steps|], step)], steps + [step];
  }

  /** Such a run: the entry first builds as an ordinary program and runs, then
      becomes a web program with a production configuration. */
  lemma LeftBehindHappens() returns (run: seq<System>, steps: seq<Step>)
    ensures IsRun(run, steps)
    ensures run[|steps|].dev.returned && run[|steps|].dev.world.live == {1}
  {
    run, steps := OrdinaryStart();
    run, steps := EntryChanges(run, steps);
    var web := BuildResult(true, Candidate(2), [], true);
    hide IsRun;
    run, steps := Extend(run, steps, Consume(Answers(true, true)));
    run, steps := Extend(run, steps, BuildCompletes(2, web));
    var s := run[|steps|];
    assert s.queue[0] == BuildFinished(web);
    run, steps := Extend(run, steps, Consume(Answers(false, false)));
    HandledFlags(s.dev, s.queue[0], Answers(false, false));
    HandledChild(s.dev, s.queue[0], Answers(false, false));
  }

  lemma OrdinaryStart() returns (run: seq<System>, steps: seq<Step>)
    ensures IsRun(run, steps) && Ordinary(run[|steps|]) && run[|steps|].queue == []
    ensures run[|steps|].clock == 0 && run[|steps|].watcher == Watcher(map["app.ahd" := Missing], None, false)
  {
    var plain := BuildResult(true, Candidate(1), [], false);
    var s := System(FirstState("app.ahd"), [], Watcher(map["app.ahd" := Missing], None, false), 0, 0, [], ["app.ahd"],
                    [Started]);
    run, steps := [s], [];
    run, steps := Extend(run, steps, BuildCompletes(1, plain));
    assert run[|steps|].queue == [BuildFinished(plain)];
    run, steps := Extend(run, steps, Consume(Answers(true, true)));
  }

  /** The first build's application runs and nothing else is going on. */
  ghost predicate Ordinary(s: System) {
    var d := s.dev;
    && !d.building && !d.pendingRebuild && !d.shuttingDown && !d.webAnnounced && !d.returned
    && d.child == Some(1) && d.childGeneration == 1 && d.buildGeneration == 1
    && d.world.builds == {} && d.world.live == {1}
  }

  lemma EntryChanges(run: seq<System>, steps: seq<Step>) returns (longer: seq<System>, more: seq<Step>)
    requires IsRun(run, steps) && Ordinary(run[|steps|]) && run[|steps|].queue == []
    requires run[|steps|].clock == 0 && run[|steps|].watcher == Watcher(map["app.ahd" := Missing], None, false)
    ensures IsRun(longer, more) && Ordinary(longer[|more|]) && longer[|more|].queue == [SourceChanged]
  {
    var disk: Disk := path => Present(1, 10);
    var s := run[|steps|];
    hide IsRun;
    assert Changed(s.watcher.snapshots, disk) by {
      assert "app.ahd" in s.watcher.snapshots;
    }
    longer, more := Extend(run, steps, Tick(0, disk));
    assert !Changed(longer[|more|].watcher.snapshots, disk);
    longer, more := Extend(longer, more, Tick(DEBOUNCE, disk));
    longer, more := Extend(longer, more, ChangeSent);
  }
}
