/**
  The application (bootstrap/application.go) over the shutdown manager: one Run, any
  number of Stop calls, signals and hook registrations, in every interleaving. Run
  itself is a sequence of steps, and so is the lifecycle-stop hook it registers.
*/
module Application {
  import opened Options
  import L = Lifecycle
  import Q = Seqs
  import SM = ShutdownManager

  datatype Status = Created | Initializing | Starting | Running | Stopping | Stopped | Failed

  /**
    Where Run stands: before, in the init phase, starting component i, rolling back, done starting,
    failed or listening.
  */
  datatype RunPc = NotRun | InitPhase | StartingAt(i: nat) | RollingBack(k: nat) | Started | StartFailed | Listening

  /** Where the lifecycle-stop hook stands; components k-1 down to 0 are still to be checked. */
  datatype StopPc = Idle | StoppingAt(k: nat, failed: bool) | StopDone(failed: bool)

  /** What components and user hooks can see. */
  datatype Event = StartAsked(i: nat) | StopAsked(i: nat, failed: bool) | HookRan(hook: SM.Hook)

  datatype State = State(n: nat, history: seq<Status>, runPc: RunPc, running: set<nat>,
                         sd: SM.State, lifecycleHook: Option<nat>, stopPc: StopPc, toStop: set<nat>, log: seq<Event>)

  function Initial(n: nat, running: set<nat>): State {
    State(n, [Created], NotRun, running, SM.INITIAL, None, Idle, {}, [])
  }

  /** Run's goroutine is thread 0 of the shutdown manager. */
  const RUN_THREAD: SM.ThreadId := 0

  datatype Step =
    | BeginRun
    | InitFails
    | InitSucceeds
    | StartComponent(up: bool)
    | StartFails(up: bool)
    | RollBack(stillUp: bool)
    | RolledBack
    | AllStarted
    | RegisterHook
    | Shutdown(step: SM.Step)
    | BeginStop(t: SM.ThreadId)
    | StopComponent(failed: bool, stillUp: bool)
    | EndStop(t: SM.ThreadId, hooksFailed: bool)

  /** The hook thread t runs next, if it is in the hook loop. */
  function NextHook(sd: SM.State, t: SM.ThreadId): Option<SM.Hook> {
    if t in sd.threads && sd.threads[t].Running? && sd.threads[t].next < |sd.threads[t].order|
    then Some(sd.threads[t].order[sd.threads[t].next])
    else None
  }

  predicate IsLifecycleHook(s: State, h: Option<SM.Hook>) {
    s.lifecycleHook.Some? && h.Some? && h.value.id == s.lifecycleHook.value
  }

  /** Steps of the shutdown manager other than Run's own and the lifecycle-stop hook, which goes step by step. */
  predicate OrdinaryShutdownStep(s: State, step: SM.Step) {
    && SM.Enabled(s.sd, step)
    && (step.RunHook? ==> !IsLifecycleHook(s, NextHook(s.sd, step.t)))
    && ((step.Listen? || step.Call?) ==> step.t != RUN_THREAD)
  }

  predicate Enabled(s: State, step: Step) {
    match step
    case BeginRun => s.runPc == NotRun
    case InitFails => s.runPc == InitPhase
    case InitSucceeds => s.runPc == InitPhase
    case StartComponent(_) => s.runPc.StartingAt? && s.runPc.i < s.n
    case StartFails(_) => s.runPc.StartingAt? && s.runPc.i < s.n
    case RollBack(_) => s.runPc.RollingBack? && s.runPc.k > 0
    case RolledBack => s.runPc == RollingBack(0)
    case AllStarted => s.runPc == StartingAt(s.n)
    case RegisterHook => s.runPc == Started
    case Shutdown(step) => OrdinaryShutdownStep(s, step)
    case BeginStop(t) => s.stopPc == Idle && IsLifecycleHook(s, NextHook(s.sd, t))
    case StopComponent(_, _) => s.stopPc.StoppingAt? && s.stopPc.k > 0
    case EndStop(t, _) => s.stopPc.StoppingAt? && s.stopPc.k == 0 && IsLifecycleHook(s, NextHook(s.sd, t))
  }

  function SetStatus(s: State, status: Status): State {
    s.(history := s.history + [status])
  }

  function Next(s: State, step: Step): State
    requires Enabled(s, step)
  {
    match step
    case BeginRun => SetStatus(s, Initializing).(runPc := InitPhase)
    case InitFails => SetStatus(s, Failed).(runPc := StartFailed)
    case InitSucceeds => SetStatus(s, Starting).(runPc := StartingAt(0))
    case StartComponent(up) =>
      s.(runPc := StartingAt(s.runPc.i + 1), running := L.SetRunning(s.running, s.runPc.i, up),
         log := s.log + [StartAsked(s.runPc.i)])
    case StartFails(up) =>
      s.(runPc := RollingBack(s.n), running := L.SetRunning(s.running, s.runPc.i, up),
         log := s.log + [StartAsked(s.runPc.i)])
    case RollBack(stillUp) =>
      var i := s.runPc.k - 1;
      if i in s.running then
        s.(runPc := RollingBack(i), running := L.SetRunning(s.running, i, stillUp),
           log := s.log + [StopAsked(i, false)])
      else s.(runPc := RollingBack(i))
    case RolledBack => SetStatus(s, Failed).(runPc := StartFailed)
    case AllStarted => SetStatus(s, Running).(runPc := Started)
    case RegisterHook =>
      var sd := s.sd.(hooks := s.sd.hooks + [SM.DefaultHook(s.sd.hooks, "lifecycle-stop")]);
      s.(runPc := Listening, lifecycleHook := Some(|s.sd.hooks|),
         sd := sd.(threads := sd.threads[RUN_THREAD := SM.Listening]))
    case Shutdown(step) =>
      s.(sd := SM.Next(s.sd, step),
         log := if step.RunHook? then s.log + [HookRan(NextHook(s.sd, step.t).value)] else s.log)
    case BeginStop(_) => SetStatus(s, Stopping).(stopPc := StoppingAt(s.n, false), toStop := s.running)
    case StopComponent(failed, stillUp) =>
      var i := s.stopPc.k - 1;
      if i in s.running then
        s.(stopPc := StoppingAt(i, s.stopPc.failed || failed), running := L.SetRunning(s.running, i, stillUp),
           log := s.log + [StopAsked(i, failed)])
      else s.(stopPc := StoppingAt(i, s.stopPc.failed))
    case EndStop(t, hooksFailed) =>
      var failed := s.stopPc.failed || hooksFailed;
      var s1 := if failed then s else SetStatus(s, Stopped);
      s1.(stopPc := StopDone(failed), sd := SM.Next(s.sd, SM.RunHook(t, failed)),
          log := s.log + [HookRan(NextHook(s.sd, t).value)])
  }

  predicate Legal(s: State, steps: seq<Step>)
    decreases |steps|
  {
    steps == [] || (Enabled(s, steps[0]) && Legal(Next(s, steps[0]), steps[1..]))
  }

  function Exec(s: State, steps: seq<Step>): State
    requires Legal(s, steps)
    decreases |steps|
  {
    if steps == [] then s else Exec(Next(s, steps[0]), steps[1..])
  }

  // ---- Invariants ----

  predicate MayFollow(a: Status, b: Status) {
    match a
    case Created => b == Initializing
    case Initializing => b == Failed || b == Starting
    case Starting => b == Failed || b == Running
    case Running => b == Stopping
    case Stopping => b == Stopped
    case _ => false
  }

  predicate StatusPath(history: seq<Status>) {
    && history != [] && history[0] == Created
    && forall i :: 0 <= i < |history| - 1 ==> MayFollow(history[i], history[i + 1])
  }

  function StatusFor(s: State): Status {
    match s.runPc
    case NotRun => Created
    case InitPhase => Initializing
    case StartingAt(_) => Starting
    case RollingBack(_) => Starting
    case StartFailed => Failed
    case Started => Running
    case Listening =>
      match s.stopPc
      case Idle => Running
      case StoppingAt(_, _) => Stopping
      case StopDone(failed) => if failed then Stopping else Stopped
  }

  function StatusNow(s: State): Status {
    if s.history == [] then Created else s.history[|s.history| - 1]
  }

  predicate StatusInv(s: State) {
    StatusPath(s.history) && StatusNow(s) == StatusFor(s)
  }

  predicate RunInv(s: State) {
    && (s.runPc.StartingAt? ==> s.runPc.i <= s.n)
    && (s.runPc.RollingBack? ==> s.runPc.k <= s.n)
    && (s.lifecycleHook.Some? <==> s.runPc == Listening)
    && (s.runPc != Listening ==> s.stopPc == Idle && RUN_THREAD !in s.sd.threads)
    && (s.lifecycleHook.Some? ==> s.lifecycleHook.value < |s.sd.hooks| && s.sd.hooks[s.lifecycleHook.value].byDefault)
  }

  predicate HasRun(ran: seq<SM.Hook>, id: nat) {
    exists i :: 0 <= i < |ran| && ran[i].id == id
  }

  /** The lifecycle-stop hook has begun exactly when it ran or the winner stands at it. */
  predicate StopInv(s: State) {
    && (s.stopPc.StoppingAt? ==>
          s.stopPc.k <= s.n && s.sd.owner.Some? && IsLifecycleHook(s, NextHook(s.sd, s.sd.owner.value)))
    && (s.lifecycleHook.Some? ==> (HasRun(s.sd.ran, s.lifecycleHook.value) <==> s.stopPc.StopDone?))
  }

  predicate Asked(log: seq<Event>, i: nat) {
    exists p :: 0 <= p < |log| && log[p].StopAsked? && log[p].i == i
  }

  predicate StopFailureLogged(log: seq<Event>) {
    exists p :: 0 <= p < |log| && log[p].StopAsked? && log[p].failed
  }

  /** Of the components to stop, those already checked have been asked and the others still run. */
  predicate AskedInv(s: State) {
    match s.stopPc
    case Idle => true
    case StoppingAt(k, failed) =>
      && (forall i :: i in s.toStop && k <= i < s.n ==> Asked(s.log, i))
      && (forall i :: i in s.toStop && i < k ==> i in s.running)
      && (StopFailureLogged(s.log) ==> failed)
    case StopDone(failed) =>
      && (forall i :: i in s.toStop && i < s.n ==> Asked(s.log, i))
      && (StopFailureLogged(s.log) ==> failed)
  }

  /** Before the lifecycle-stop hook begins, only a rollback asks components to stop. */
  predicate QuietInv(s: State) {
    s.stopPc == Idle && !s.runPc.RollingBack? && s.runPc != StartFailed ==>
      forall p :: 0 <= p < |s.log| ==> !s.log[p].StopAsked?
  }

  /** An AddHook hook that ran was added before lifecycle-stop, and the snapshot holds lifecycle-stop. */
  predicate IsEarlierHook(s: State, e: Event) {
    e.HookRan? && e.hook.byDefault && SnapshotHasLifecycle(s) && e.hook.id < s.lifecycleHook.value
  }

  /**
    Log position p, if it is an earlier AddHook hook of a snapshot with lifecycle-stop, comes after
    every stop request.
  */
  predicate StopsPrecede(s: State, p: nat)
    requires p < |s.log|
  {
    IsEarlierHook(s, s.log[p]) ==>
      forall i :: i in s.toStop && i < s.n ==> Asked(s.log[..p], i)
  }

  predicate SnapshotHasLifecycle(s: State) {
    s.lifecycleHook.Some? && s.sd.snapshot.Some? && s.lifecycleHook.value < |s.sd.snapshot.value|
  }

  predicate OrderInv(s: State) {
    forall p :: 0 <= p < |s.log| ==> StopsPrecede(s, p)
  }

  predicate LogInv(s: State) {
    forall p :: 0 <= p < |s.log| && s.log[p].HookRan? ==> s.log[p].hook in s.sd.ran
  }

  predicate Inv(s: State) {
    SM.Inv(s.sd) && StatusInv(s) && RunInv(s) && StopInv(s) && AskedInv(s) && QuietInv(s) && LogInv(s) && OrderInv(s)
  }

  // ---- Every step keeps the invariants ----

  lemma {:induction false} NextKeepsShutdownInv(s: State, step: Step)
    requires Inv(s) && Enabled(s, step)
    ensures SM.Inv(Next(s, step).sd)
  {
    match step
    case Shutdown(sdStep) => SM.NextKeepsInv(s.sd, sdStep);
    case EndStop(t, hooksFailed) => SM.NextKeepsInv(s.sd, SM.RunHook(t, s.stopPc.failed || hooksFailed));
    case RegisterHook =>
      SM.NextKeepsInv(s.sd, SM.AddHook("lifecycle-stop"));
      SM.NextKeepsInv(SM.Next(s.sd, SM.AddHook("lifecycle-stop")), SM.Listen(RUN_THREAD));
    case _ =>
  }

  lemma {:induction false} NextKeepsStatusInv(s: State, step: Step)
    requires StatusInv(s) && RunInv(s) && Enabled(s, step)
    ensures StatusInv(Next(s, step))
  {
  }

  lemma {:induction false} NextKeepsRunInv(s: State, step: Step)
    requires RunInv(s) && Enabled(s, step)
    ensures RunInv(Next(s, step))
  {
  }

  /** Hooks that ran come from the snapshot, so their numbers are below its length. */
  lemma {:induction false} RanIsFromSnapshot(sd: SM.State, i: nat)
    requires SM.Inv(sd) && i < |sd.ran|
    ensures sd.snapshot.Some? && sd.ran[i] in sd.snapshot.value && sd.ran[i].id < |sd.snapshot.value| <= |sd.hooks|
  {
    var pc := sd.threads[sd.owner.value];
    var order := if pc.Running? then pc.order else sd.ran;
    assert order[i] == sd.ran[i];
    Q.SameMembers(order, sd.snapshot.value);
    assert order[i] in sd.snapshot.value;
    var k :| 0 <= k < |sd.snapshot.value| && sd.snapshot.value[k] == order[i];
    assert sd.hooks[k] == sd.snapshot.value[k];
  }

  lemma {:induction false} NextKeepsStopInv(s: State, step: Step)
    requires Inv(s) && Enabled(s, step)
    ensures StopInv(Next(s, step))
  {
    match step
    case RegisterHook =>
      forall i | 0 <= i < |s.sd.ran| ensures s.sd.ran[i].id != |s.sd.hooks| {
        RanIsFromSnapshot(s.sd, i);
      }
    case Shutdown(sdStep) => ShutdownKeepsStopInv(s, sdStep);
    case EndStop(t, hooksFailed) =>
      var ran' := Next(s, step).sd.ran;
      assert ran'[|s.sd.ran|].id == s.lifecycleHook.value;
    case _ =>
  }

  lemma {:induction false} ShutdownKeepsStopInv(s: State, step: SM.Step)
    requires Inv(s) && OrdinaryShutdownStep(s, step)
    ensures StopInv(Next(s, Shutdown(step)))
  {
    var s' := Next(s, Shutdown(step));
    if step.RunHook? {
      assert s'.sd.ran == s.sd.ran + [NextHook(s.sd, step.t).value];
      assert forall i :: 0 <= i < |s.sd.ran| ==> s'.sd.ran[i] == s.sd.ran[i];
      if s.lifecycleHook.Some? && HasRun(s.sd.ran, s.lifecycleHook.value) {
        var i :| 0 <= i < |s.sd.ran| && s.sd.ran[i].id == s.lifecycleHook.value;
        assert s'.sd.ran[i].id == s.lifecycleHook.value;
      }
    } else {
      assert s'.sd.ran == s.sd.ran;
    }
  }

  lemma {:induction false} AskedGrows(log: seq<Event>, e: Event)
    ensures forall i :: Asked(log, i) ==> Asked(log + [e], i)
    ensures e.StopAsked? ==> Asked(log + [e], e.i)
    ensures StopFailureLogged(log + [e]) <==> StopFailureLogged(log) || (e.StopAsked? && e.failed)
  {
    var log' := log + [e];
    assert log'[|log|] == e && forall p :: 0 <= p < |log| ==> log'[p] == log[p];
    forall i | Asked(log, i) ensures Asked(log', i) {
      var p :| 0 <= p < |log| && log[p].StopAsked? && log[p].i == i;
      assert log'[p] == log[p];
    }
    if StopFailureLogged(log) {
      var p :| 0 <= p < |log| && log[p].StopAsked? && log[p].failed;
      assert log'[p] == log[p];
    }
  }

  lemma {:induction false} NextKeepsAskedInv(s: State, step: Step)
    requires Inv(s) && Enabled(s, step)
    ensures AskedInv(Next(s, step))
  {
    var s' := Next(s, step);
    if s'.log != s.log {
      AskedGrows(s.log, s'.log[|s.log|]);
      assert s'.log == s.log + [s'.log[|s.log|]];
    }
  }

  lemma {:induction false} NextKeepsQuietInv(s: State, step: Step)
    requires Inv(s) && Enabled(s, step)
    ensures QuietInv(Next(s, step))
  {
  }

  lemma {:induction false} NextKeepsLogInv(s: State, step: Step)
    requires Inv(s) && Enabled(s, step)
    ensures LogInv(Next(s, step))
  {
    var s' := Next(s, step);
    assert s.sd.ran <= s'.sd.ran;
    assert forall h :: h in s.sd.ran ==> h in s'.sd.ran;
    if s'.log != s.log && s'.log[|s.log|].HookRan? {
      assert s'.sd.ran[|s.sd.ran|] == s'.log[|s.log|].hook;
    }
  }

  /** An earlier AddHook hook of a snapshot with lifecycle-stop only runs after lifecycle-stop. */
  lemma {:induction false} LifecycleRanFirst(sd: SM.State, id: nat, p: nat)
    requires SM.Inv(sd) && sd.snapshot.Some? && id < |sd.snapshot.value| && sd.hooks[id].byDefault
    requires p < |sd.ran| && sd.ran[p].byDefault && sd.ran[p].id < id
    ensures exists q :: 0 <= q < p && sd.ran[q].id == id
  {
    var pc := sd.threads[sd.owner.value];
    var order := if pc.Running? then pc.order else sd.ran;
    var hook := sd.snapshot.value[id];
    assert hook == sd.hooks[id];
    Q.SameMembers(order, sd.snapshot.value);
    assert hook in order;
    var q :| 0 <= q < |order| && order[q] == hook;
    assert order[p] == sd.ran[p];
    SM.DefaultHooksRunInReverse(order, sd.snapshot.value, q, p);
    assert sd.ran[q] == order[q];
  }

  /** A step that runs such a hook finds every stop request made. */
  lemma {:induction false} NewHookComesLater(s: State, step: Step)
    requires Inv(s) && Enabled(s, step) && SM.Inv(Next(s, step).sd)
    requires |s.log| < |Next(s, step).log| && IsEarlierHook(Next(s, step), Next(s, step).log[|s.log|])
    ensures Next(s, step).toStop == s.toStop && forall i :: i in s.toStop && i < s.n ==> Asked(s.log, i)
  {
    var s' := Next(s, step);
    LifecycleRanFirst(s'.sd, s'.lifecycleHook.value, |s.sd.ran|);
    var q :| 0 <= q < |s.sd.ran| && s'.sd.ran[q].id == s'.lifecycleHook.value;
    assert s.sd.ran[q] == s'.sd.ran[q];
    assert HasRun(s.sd.ran, s.lifecycleHook.value);
  }

  lemma {:induction false} NextKeepsOrderInv(s: State, step: Step)
    requires Inv(s) && Enabled(s, step) && SM.Inv(Next(s, step).sd) && RunInv(Next(s, step))
    ensures OrderInv(Next(s, step))
  {
    var s' := Next(s, step);
    forall p | 0 <= p < |s'.log| ensures StopsPrecede(s', p) {
      if p < |s.log| {
        OldEventKeepsOrder(s, step, p);
      } else if IsEarlierHook(s', s'.log[p]) {
        NewHookComesLater(s, step);
        assert s'.log[..p] == s.log;
      }
    }
  }

  /** When lifecycle-stop begins, no earlier hook of its snapshot has run. */
  lemma {:induction false} NoEarlierHookRanYet(s: State, t: SM.ThreadId, p: nat)
    requires Inv(s) && Enabled(s, BeginStop(t)) && p < |s.log|
    ensures !IsEarlierHook(s, s.log[p])
  {
    if IsEarlierHook(s, s.log[p]) {
      var k :| 0 <= k < |s.sd.ran| && s.sd.ran[k] == s.log[p].hook;
      LifecycleRanFirst(s.sd, s.lifecycleHook.value, k);
    }
  }

  lemma {:induction false} SnapshotIsTakenOnce(sd: SM.State, step: SM.Step)
    requires SM.Inv(sd) && SM.Enabled(sd, step) && sd.snapshot.Some?
    ensures SM.Next(sd, step).snapshot == sd.snapshot
  {
  }

  /** Once a hook has run, later steps do not put lifecycle-stop into the snapshot. */
  lemma {:induction false} LifecycleIsNotAddedLater(s: State, step: Step)
    requires Inv(s) && Enabled(s, step) && s.sd.ran != [] && SnapshotHasLifecycle(Next(s, step))
    ensures SnapshotHasLifecycle(s) && Next(s, step).lifecycleHook == s.lifecycleHook
  {
    RanIsFromSnapshot(s.sd, 0);
    match step
    case Shutdown(sdStep) => SnapshotIsTakenOnce(s.sd, sdStep);
    case EndStop(t, hooksFailed) => SnapshotIsTakenOnce(s.sd, SM.RunHook(t, s.stopPc.failed || hooksFailed));
    case _ =>
  }

  /** Other steps leave the components to stop, and which hooks are earlier, as they were. */
  lemma {:induction false} EarlierStaysEarlier(s: State, step: Step, p: nat)
    requires Inv(s) && Enabled(s, step) && p < |s.log| && !step.BeginStop?
    ensures Next(s, step).toStop == s.toStop && Next(s, step).n == s.n
    ensures IsEarlierHook(Next(s, step), s.log[p]) ==> IsEarlierHook(s, s.log[p])
  {
    if IsEarlierHook(Next(s, step), s.log[p]) {
      assert s.log[p].hook in s.sd.ran;
      LifecycleIsNotAddedLater(s, step);
    }
  }

  lemma {:induction false} OldEventKeepsOrder(s: State, step: Step, p: nat)
    requires Inv(s) && Enabled(s, step) && p < |s.log| && RunInv(Next(s, step))
    ensures p < |Next(s, step).log| && StopsPrecede(Next(s, step), p)
  {
    var s' := Next(s, step);
    assert s'.log[p] == s.log[p] && s'.log[..p] == s.log[..p];
    assert StopsPrecede(s, p);
    if step.BeginStop? {
      NoEarlierHookRanYet(s, step.t, p);
    } else {
      EarlierStaysEarlier(s, step, p);
    }
  }

  lemma {:induction false} NextKeepsInv(s: State, step: Step)
    requires Inv(s) && Enabled(s, step)
    ensures Inv(Next(s, step))
  {
    NextKeepsShutdownInv(s, step);
    NextKeepsStatusInv(s, step);
    NextKeepsRunInv(s, step);
    NextKeepsStopInv(s, step);
    NextKeepsAskedInv(s, step);
    NextKeepsQuietInv(s, step);
    NextKeepsLogInv(s, step);
    NextKeepsOrderInv(s, step);
  }

  lemma {:induction false} RunKeepsInv(s: State, steps: seq<Step>)
    requires Inv(s) && Legal(s, steps)
    ensures Inv(Exec(s, steps))
    decreases |steps|
  {
    if steps != [] {
      NextKeepsInv(s, steps[0]);
      RunKeepsInv(Next(s, steps[0]), steps[1..]);
    }
  }

  lemma {:induction false} InitialInv(n: nat, running: set<nat>)
    ensures Inv(Initial(n, running))
  {
  }

  /**
    In every interleaving of one Run with Stop calls, signals and registrations, statuses follow
    Created, Initializing, then Failed or Starting, then Failed or Running, then at most Stopping,
    then at most Stopped; and Stopped means that no stop request and no hook of LifecycleManager.Stop failed.
  */
  lemma {:induction false} StatusesInEveryRun(n: nat, running: set<nat>, steps: seq<Step>)
    requires Legal(Initial(n, running), steps)
    ensures var s := Exec(Initial(n, running), steps);
            && StatusPath(s.history)
            && (StatusNow(s) == Stopped ==> s.stopPc == StopDone(false) && !StopFailureLogged(s.log))
            && (s.stopPc.StopDone? && !s.stopPc.failed ==> StatusNow(s) == Stopped)
  {
    InitialInv(n, running);
    RunKeepsInv(Initial(n, running), steps);
  }

  /**
    In every interleaving whose shutdown snapshot holds lifecycle-stop: when a hook added earlier
    by AddHook runs, every component that ran when lifecycle-stop began has been asked to stop.
  */
  lemma {:induction false} ComponentsStopBeforeEarlierHooks(n: nat, running: set<nat>, steps: seq<Step>, p: nat, i: nat)
    requires Legal(Initial(n, running), steps)
    requires var s := Exec(Initial(n, running), steps);
             && p < |s.log| && s.log[p].HookRan? && s.log[p].hook.byDefault && SnapshotHasLifecycle(s)
             && s.log[p].hook.id < s.lifecycleHook.value && i in s.toStop && i < n
    ensures exists q :: 0 <= q < p && Exec(Initial(n, running), steps).log[q].StopAsked?
                        && Exec(Initial(n, running), steps).log[q].i == i
  {
    InitialInv(n, running);
    RunKeepsInv(Initial(n, running), steps);
    ComponentsAreFixed(Initial(n, running), steps);
    var s := Exec(Initial(n, running), steps);
    assert StopsPrecede(s, p);
    var q :| 0 <= q < |s.log[..p]| && s.log[..p][q].StopAsked? && s.log[..p][q].i == i;
    assert s.log[q] == s.log[..p][q];
  }

  lemma {:induction false} ComponentsAreFixed(s: State, steps: seq<Step>)
    requires Legal(s, steps)
    ensures Exec(s, steps).n == s.n
    decreases |steps|
  {
    if steps != [] {
      ComponentsAreFixed(Next(s, steps[0]), steps[1..]);
    }
  }

  /**
    Once shutdown is over and Run had registered its hook, the components were asked to stop
    exactly when that registration came before the snapshot. If it came later, Run returns with the
    status still Running and no component was ever asked to stop.
  */
  lemma {:induction false} ComponentsStopIffHookWasInTime(n: nat, running: set<nat>, steps: seq<Step>)
    requires Legal(Initial(n, running), steps)
    requires var s := Exec(Initial(n, running), steps);
             s.runPc == Listening && s.sd.owner.Some? && SM.At(s.sd, s.sd.owner.value, SM.Returned)
    ensures var s := Exec(Initial(n, running), steps);
            if SnapshotHasLifecycle(s) then s.stopPc.StopDone? && forall i :: i in s.toStop && i < n ==> Asked(s.log, i)
            else s.stopPc == Idle && StatusNow(s) == Running && forall i :: !Asked(s.log, i)
  {
    InitialInv(n, running);
    RunKeepsInv(Initial(n, running), steps);
    ComponentsAreFixed(Initial(n, running), steps);
    var s := Exec(Initial(n, running), steps);
    var id := s.lifecycleHook.value;
    if SnapshotHasLifecycle(s) {
      var hook := s.sd.snapshot.value[id];
      Q.SameMembers(s.sd.ran, s.sd.snapshot.value);
      assert hook in s.sd.ran && hook == s.sd.hooks[id];
      var k :| 0 <= k < |s.sd.ran| && s.sd.ran[k] == hook;
      assert HasRun(s.sd.ran, id);
    } else if HasRun(s.sd.ran, id) {
      var k :| 0 <= k < |s.sd.ran| && s.sd.ran[k].id == id;
      RanIsFromSnapshot(s.sd, k);
    }
  }

  lemma {:induction false} Extend(s: State, steps: seq<Step>, step: Step)
    requires Legal(s, steps) && Enabled(Exec(s, steps), step)
    ensures Legal(s, steps + [step]) && Exec(s, steps + [step]) == Next(Exec(s, steps), step)
    decreases |steps|
  {
    if steps == [] {
      assert (steps + [step])[1..] == [];
    } else {
      assert (steps + [step])[1..] == steps[1..] + [step];
      Extend(Next(s, steps[0]), steps[1..], step);
    }
  }
}
