/** Progress of a development session: left alone, it builds every change it has
    seen, in whatever order its goroutines run. */
module DevProgress {
  import opened DevController
  import opened DevSystem
  import opened DevWatcher
  import opened Options

  /** Nobody edits a tracked file, and nobody asks for a stop. */
  ghost predicate Quiet(s: System, step: Step) {
    !step.StopArrives? && (step.Tick? ==> !Changed(s.watcher.snapshots, step.disk))
  }

  /** A poll that has nothing to hand over yet. */
  predicate Idle(s: System, step: Step) {
    step.Tick? && (s.watcher.changedAt.Some? ==> step.now - s.watcher.changedAt.value < DEBOUNCE)
  }

  /** A piece of work the session can do by itself. */
  ghost predicate Works(s: System, step: Step) {
    Enabled(s, step) && Quiet(s, step) && !Idle(s, step)
  }

  /** What brings a change forward: the loop takes an event, the build ends, the watcher
      polls or hands over. The exit of the application and its report are not among these,
      so no progress ever waits for the program that is being developed. */
  predicate Advances(step: Step) {
    step.Consume? || step.BuildCompletes? || step.Tick? || step.ChangeSent?
  }

  ghost predicate CanWork(s: System) {
    exists step :: Works(s, step) && Advances(step)
  }

  // ---- the work left to do -----------------------------------------------------

  /** Each event weighs more than all that comes of it. */
  function EventLoad(event: Event): nat {
    match event
    case SourceChanged => 8
    case BuildFinished(_) => 5
    case ChildExited(_) => 1
    case StopRequested(_, _) => 1
  }

  function QueueLoad(queue: seq<Event>): nat {
    if queue == [] then 0 else EventLoad(queue[0]) + QueueLoad(queue[1..])
  }

  function WorldLoad(w: World): nat {
    6 * |w.builds| + 3 * |w.live| + 2 * |w.exiting| + if w.watchSlot.Some? then 1 else 0
  }

  /** An upper bound on the pieces of work left. */
  function Load(s: System): nat {
    QueueLoad(s.queue) + WorldLoad(s.dev.world) + (if s.dev.pendingRebuild then 7 else 0)
    + (if s.watcher.sending then 9 else 0) + (if s.watcher.changedAt.Some? then 10 else 0)
  }

  lemma {:induction false} QueueLoadAppend(queue: seq<Event>, event: Event)
    ensures QueueLoad(queue + [event]) == QueueLoad(queue) + EventLoad(event)
  {
    if queue == [] {
      assert ([] + [event])[1..] == [];
    } else {
      assert (queue + [event])[1..] == queue[1..] + [event];
      QueueLoadAppend(queue[1..], event);
    }
  }

  lemma WithLoad<T>(s: set<T>, x: T)
    ensures |s + {x}| <= |s| + 1 && (x in s ==> |s - {x}| == |s| - 1)
  {
    if x in s {
      assert s + {x} == s;
    }
  }

  lemma StoppedLoad(w: World, child: Option<nat>)
    ensures 3 * |Stopped(w, child).live| + 2 * |Stopped(w, child).exiting| <= 3 * |w.live| + 2 * |w.exiting|
  {
    if child.Some? {
      WithLoad(w.live, child.value);
      WithLoad(w.exiting, child.value);
    }
  }

  /** Taking an event leaves less to do: what it starts weighs less than the event. */
  lemma TakingLightens(d: Dev, event: Event, answers: Answers)
    requires !d.returned
    ensures var h := Handled(d, event, answers);
            WorldLoad(h.world) + (if h.pendingRebuild then 7 else 0)
            < WorldLoad(d.world) + (if d.pendingRebuild then 7 else 0) + EventLoad(event)
  {
    HandledFlags(d, event, answers);
    HandledBuilds(d, event, answers);
    HandledChild(d, event, answers);
    HandledWatchSlot(d, event, answers);
    var h := Handled(d, event, answers);
    hide Handled, WatchSet;
    StoppedLoad(d.world, d.child);
    WithLoad(d.world.builds, h.buildGeneration);
    WithLoad(Stopped(d.world, d.child).live, h.childGeneration);
    hide Stopped;
  }

  /** Every piece of work leaves less to do. */
  lemma WorkLightens(s: System, step: Step)
    requires Works(s, step)
    ensures Load(Next(s, step)) < Load(s)
  {
    hide Handled, PathSet, Changed, WorldLoad;
    match step {
      case Consume(answers) => TakingLightens(s.dev, s.queue[0], answers);
      case BuildCompletes(generation, result) => OutsideLightens(s, step);
      case ProcessExits(child) => OutsideLightens(s, step);
      case ExitReported(child) => OutsideLightens(s, step);
      case PathsApplied(_) => OutsideLightens(s, step);
      case ChangeSent => QueueLoadAppend(s.queue, SourceChanged);
      case _ =>
    }
  }

  lemma ProcessGone(w: World, child: nat)
    requires child in w.live
    ensures WorldLoad(w.(live := w.live - {child}, exiting := w.exiting + {child})) < WorldLoad(w)
  {
    WithLoad(w.live, child);
    WithLoad(w.exiting, child);
  }

  /** What happens beside the loop: a build comes back, a process goes or is reported,
      the watcher takes its new paths. */
  lemma OutsideLightens(s: System, step: Step)
    requires Enabled(s, step)
    requires (step.BuildCompletes? || step.ProcessExits? || step.ExitReported? || step.PathsApplied?)
    ensures Load(Next(s, step)) < Load(s)
  {
    hide PathSet;
    var w := s.dev.world;
    match step {
      case BuildCompletes(generation, result) =>
        WithLoad(w.builds, generation);
        QueueLoadAppend(s.queue, BuildFinished(result));
        hide QueueLoad;
      case ProcessExits(child) =>
        ProcessGone(w, child);
        hide QueueLoad, WorldLoad;
      case ExitReported(child) =>
        WithLoad(w.exiting, child);
        QueueLoadAppend(s.queue, ChildExited(child));
        hide QueueLoad;
      case _ =>
    }
  }

  lemma IdleWaits(s: System, step: Step)
    requires Enabled(s, step) && Quiet(s, step) && Idle(s, step)
    ensures Load(Next(s, step)) == Load(s)
  {
  }

  /** While a change is on its way the session is never stuck: whatever the application does,
      the loop, the build or the watcher can work. */
  lemma WorkRemains(s: System) returns (step: Step)
    requires Invariant(s) && !s.dev.shuttingDown && ChangeOnItsWay(s)
    ensures Works(s, step) && Advances(step) && (step.Consume? ==> step.answers == Answers(true, false))
  {
    var w := s.dev.world;
    if s.queue != [] {
      step := Consume(Answers(true, false));
    } else if s.watcher.sending {
      step := ChangeSent;
    } else if s.watcher.changedAt.Some? {
      var snapshots := s.watcher.snapshots;
      var disk: Disk := path => if path in snapshots then snapshots[path] else Missing;
      step := Tick(s.clock + s.watcher.changedAt.value + DEBOUNCE, disk);
    } else {
      step := BuildCompletes(s.dev.buildGeneration, BuildResult(false, NoBinary, [], false));
    }
  }

  // ---- runs that are left alone --------------------------------------------------

  /** From i to j nobody edits a tracked file and nobody asks for a stop. */
  ghost predicate LeftAlone(run: seq<System>, steps: seq<Step>, i: nat, j: nat)
    requires |run| == |steps| + 1 && j <= |steps|
  {
    forall k :: i <= k < j ==> Quiet(run[k], steps[k])
  }

  /** How often there was work between i and j. */
  ghost function Worked(run: seq<System>, steps: seq<Step>, i: nat, j: nat): nat
    requires |run| == |steps| + 1 && i <= j <= |steps|
  {
    if i == j then 0 else Worked(run, steps, i, j - 1) + if Idle(run[j - 1], steps[j - 1]) then 0 else 1
  }

  /** In whatever order the goroutines run, the work done and the work left are
      together no more than the work there was. */
  lemma {:induction false} WorkIsBounded(run: seq<System>, steps: seq<Step>, i: nat, j: nat)
    requires IsRun(run, steps) && i <= j <= |steps| && LeftAlone(run, steps, i, j)
    ensures Worked(run, steps, i, j) + Load(run[j]) <= Load(run[i])
    decreases j
  {
    assert |run| == |steps| + 1;
    hide Enabled, Next, Load, Quiet, Idle, IsRun;
    if i < j {
      var k := j - 1;
      WorkIsBounded(run, steps, i, k);
      RunStep(run, steps, k);
      if Idle(run[k], steps[k]) {
        IdleWaits(run[k], steps[k]);
      } else {
        assert Works(run[k], steps[k]);
        WorkLightens(run[k], steps[k]);
      }
    }
  }

  predicate StopQueued(s: System) {
    exists i :: 0 <= i < |s.queue| && s.queue[i].StopRequested?
  }

  ghost predicate Refusing(s: System, step: Step) {
    step.Consume? && s.queue != [] && Refuses(s.dev, s.queue[0], step.answers)
  }

  /** The web configuration is never refused between i and j. */
  ghost predicate NoRefusal(run: seq<System>, steps: seq<Step>, i: nat, j: nat)
    requires |run| == |steps| + 1 && j <= |steps|
  {
    forall k :: i <= k < j ==> !Refusing(run[k], steps[k])
  }

  /** Only a stop or a refusal begins a shutdown. */
  lemma GoesOn(s: System, step: Step)
    requires Enabled(s, step) && Quiet(s, step) && !Refusing(s, step)
    requires !s.dev.shuttingDown && !StopQueued(s)
    ensures !Next(s, step).dev.shuttingDown && !StopQueued(Next(s, step))
  {
    hide Handled, PathSet, Ticked, Changed;
    if step.Consume? {
      HandledFlags(s.dev, s.queue[0], step.answers);
    }
  }

  lemma {:induction false} GoesOnAlone(run: seq<System>, steps: seq<Step>, i: nat, j: nat)
    requires IsRun(run, steps) && i <= j <= |steps| && LeftAlone(run, steps, i, j) && NoRefusal(run, steps, i, j)
    requires !run[i].dev.shuttingDown && !StopQueued(run[i])
    ensures !run[j].dev.shuttingDown && !StopQueued(run[j])
    decreases j
  {
    assert |run| == |steps| + 1;
    hide Enabled, Next, Quiet, Refusing, IsRun, StopQueued;
    if i < j {
      var k := j - 1;
      GoesOnAlone(run, steps, i, k);
      RunStep(run, steps, k);
      assert Quiet(run[k], steps[k]) && !Refusing(run[k], steps[k]);
      hide LeftAlone, NoRefusal;
      GoesOn(run[k], steps[k]);
    }
  }

  /** Every observed change is built. However the goroutines of a session that is left
      alone take turns, at every later moment either a build has begun after the change,
      or the loop, the build or the watcher can work, even while the application runs, and
      fewer than Load(run[i]) pieces of work were done by then. Only a stop or a refused
      web configuration could intervene. */
  lemma ChangesAreBuilt(run: seq<System>, steps: seq<Step>, i: nat, j: nat, m: nat)
    requires IsRun(run, steps) && i <= j <= |steps| && LeftAlone(run, steps, i, j) && NoRefusal(run, steps, i, j)
    requires !run[i].dev.shuttingDown && !StopQueued(run[i])
    requires m < |run[j].log| && run[j].log[m] == Observed
    ensures StartedAfter(run[j].log, m) || (CanWork(run[j]) && Worked(run, steps, i, j) < Load(run[i]))
  {
    assert |run| == |steps| + 1;
    hide Enabled, Next, Quiet, Refusing, IsRun, StopQueued, Works, Idle;
    GoesOnAlone(run, steps, i, j);
    RunsAreSafe(run, steps, j);
    if !StartedAfter(run[j].log, m) {
      var s := run[j];
      var step := WorkRemains(s);
      WorkLightens(s, step);
      hide Load;
      WorkIsBounded(run, steps, i, j);
    }
  }

  /** One way on: the loop, the build and the watcher, left alone, work until every change is
      built, with the application running throughout. */
  lemma {:induction false} Settles(run: seq<System>, steps: seq<Step>) returns (longer: seq<System>, more: seq<Step>)
    requires IsRun(run, steps) && !run[|steps|].dev.shuttingDown && !StopQueued(run[|steps|])
    ensures IsRun(longer, more) && run <= longer && steps <= more
    ensures LeftAlone(longer, more, |steps|, |more|) && NoRefusal(longer, more, |steps|, |more|)
    ensures |more| - |steps| <= Load(run[|steps|]) && forall k :: |steps| <= k < |more| ==> Advances(more[k])
    ensures var s := longer[|more|];
            !s.dev.shuttingDown && !ChangeOnItsWay(s)
            && forall m :: 0 <= m < |s.log| && s.log[m] == Observed ==> StartedAfter(s.log, m)
    decreases Load(run[|steps|])
  {
    assert |run| == |steps| + 1;
    hide Enabled, Next, Quiet, Refusing, IsRun, StopQueued, Idle, Load, ChangeOnItsWay, StartedAfter;
    var s := run[|steps|];
    RunsAreSafe(run, steps, |steps|);
    if ChangeOnItsWay(s) {
      var step := WorkRemains(s);
      WorkLightens(s, step);
      NotRefusing(s, step);
      GoesOn(s, step);
      Extended(run, steps, step);
      var further, done := run + [Next(s, step)], steps + [step];
      assert further[|done|] == Next(s, step);
      longer, more := Settles(further, done);
      assert longer[|steps|] == s && more[|steps|] == step;
    } else {
      longer, more := run, steps;
    }
  }

  lemma NotRefusing(s: System, step: Step)
    requires step.Consume? ==> step.answers.webAllowed
    ensures !Refusing(s, step)
  {
  }

  lemma Extended(run: seq<System>, steps: seq<Step>, step: Step)
    requires IsRun(run, steps) && Enabled(run[|steps|], step)
    ensures IsRun(run + [Next(run[|steps|], step)], steps + [step])
  {
    hide Enabled, Next, Initial;
  }
}
