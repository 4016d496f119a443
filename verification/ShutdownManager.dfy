/**
  Graceful shutdown (bootstrap/shutdown.go): hook registration, the compare-and-swap
  that lets one caller through, the snapshot, its in-place sort and the hook loop.
  First the manager as one goroutine sees it, then every interleaving of many.
*/
module ShutdownManager {
  import opened Options
  import Q = Seqs

  /** `id` is the hook's place in registration order; it stands for its function. */
  datatype Hook = Hook(id: nat, name: string, priority: int, byDefault: bool)

  function DefaultHook(hooks: seq<Hook>, name: string): Hook {
    Hook(|hooks|, name, |hooks|, true)
  }

  function PriorityHook(hooks: seq<Hook>, name: string, priority: int): Hook {
    Hook(|hooks|, name, priority, false)
  }

  /** How registration numbers hooks: in order, and AddHook uses the number as priority. */
  predicate Registered(hooks: seq<Hook>) {
    forall i :: 0 <= i < |hooks| ==> hooks[i].id == i && (hooks[i].byDefault ==> hooks[i].priority == i)
  }

  predicate Descending(hooks: seq<Hook>) {
    forall i, j :: 0 <= i < j < |hooks| ==> hooks[i].priority >= hooks[j].priority
  }

  /** `order` runs every hook of `hooks` once, higher priorities first. */
  predicate RunsAll(order: seq<Hook>, hooks: seq<Hook>) {
    multiset(order) == multiset(hooks) && Descending(order)
  }

  /** Hooks added by AddHook run in reverse registration order, whatever AddPriorityHook adds in between. */
  lemma {:induction false} DefaultHooksRunInReverse(order: seq<Hook>, hooks: seq<Hook>, p: nat, q: nat)
    requires Registered(hooks) && RunsAll(order, hooks)
    requires p < |order| && q < |order| && order[p].byDefault && order[q].byDefault
    ensures p < q <==> order[p].id > order[q].id
  {
    Q.SameMembers(order, hooks);
    assert order[p] in hooks && order[q] in hooks;
    Q.PermutationIsDistinct(hooks, order);
  }

  /** The first i places are final: nothing behind them has a higher priority. */
  predicate Front(s: seq<Hook>, i: nat) {
    forall x, y :: 0 <= x < i && x < y < |s| ==> s[x].priority >= s[y].priority
  }

  predicate Leads(s: seq<Hook>, i: nat, j: nat)
    requires i < |s| && j <= |s|
  {
    forall y :: i < y < j ==> s[i].priority >= s[y].priority
  }

  lemma {:induction false} ExchangeStep(s: seq<Hook>, i: nat, j: nat)
    requires i < j < |s| && Front(s, i) && Leads(s, i, j)
    ensures if s[j].priority > s[i].priority
            then Front(s[i := s[j]][j := s[i]], i) && Leads(s[i := s[j]][j := s[i]], i, j + 1)
            else Leads(s, i, j + 1)
  {
  }

  lemma {:induction false} LeaderJoinsFront(s: seq<Hook>, i: nat)
    requires i < |s| && Front(s, i) && Leads(s, i, |s|)
    ensures Front(s, i + 1)
  {
  }

  method Swap(a: array<Hook>, i: nat, j: nat)
    requires i < j < a.Length
    modifies a
    ensures a[..] == old(a[..])[i := old(a[j])][j := old(a[i])]
    ensures multiset(a[..]) == old(multiset(a[..]))
  {
    a[i], a[j] := a[j], a[i];
  }

  /** The exchange sort of the snapshot, in place. */
  method SortByPriority(a: array<Hook>)
    modifies a
    ensures RunsAll(a[..], old(a[..]))
  {
    for i := 0 to a.Length
      invariant multiset(a[..]) == old(multiset(a[..]))
      invariant Front(a[..], i)
    {
      for j := i + 1 to a.Length
        invariant multiset(a[..]) == old(multiset(a[..]))
        invariant Front(a[..], i) && Leads(a[..], i, j)
      {
        ExchangeStep(a[..], i, j);
        if a[j].priority > a[i].priority {
          Swap(a, i, j);
        }
      }
      LeaderJoinsFront(a[..], i);
    }
  }

  /** The hooks whose functions return an error, in the order they ran. */
  function Failed(hooks: seq<Hook>, fails: Hook -> bool): seq<Hook> {
    if hooks == [] then []
    else
      var last := hooks[|hooks| - 1];
      if fails(last) then Failed(hooks[..|hooks| - 1], fails) + [last] else Failed(hooks[..|hooks| - 1], fails)
  }

  lemma {:induction false} FailedStep(hooks: seq<Hook>, i: nat, fails: Hook -> bool)
    requires i < |hooks|
    ensures hooks[..i + 1] == hooks[..i] + [hooks[i]]
    ensures Failed(hooks[..i + 1], fails) ==
            if fails(hooks[i]) then Failed(hooks[..i], fails) + [hooks[i]] else Failed(hooks[..i], fails)
  {
    assert hooks[..i + 1][..i] == hooks[..i];
  }

  class Manager {
    var hooks: seq<Hook>
    var stopped: bool
    /** How often stopCh was closed; a second close would panic. */
    var closes: nat
    var ran: seq<Hook>

    predicate Valid()
      reads this
    {
      Registered(hooks) && closes == if stopped then 1 else 0
    }

    constructor ()
      ensures Valid() && hooks == [] && !stopped && ran == []
    {
      hooks, stopped, closes, ran := [], false, 0, [];
    }

    method AddHook(name: string)
      requires Valid()
      modifies this`hooks
      ensures Valid() && hooks == old(hooks) + [Hook(|old(hooks)|, name, |old(hooks)|, true)]
    {
      hooks := hooks + [DefaultHook(hooks, name)];
    }

    method AddPriorityHook(name: string, priority: int)
      requires Valid()
      modifies this`hooks
      ensures Valid() && hooks == old(hooks) + [Hook(|old(hooks)|, name, priority, false)]
    {
      hooks := hooks + [PriorityHook(hooks, name, priority)];
    }

    /** Shutdown without interference: the first call runs all hooks, whichever of them fail, later calls none. */
    method Shutdown(fails: Hook -> bool) returns (failures: seq<Hook>)
      requires Valid()
      modifies this`stopped, this`closes, this`ran
      ensures Valid() && stopped
      ensures old(stopped) ==> ran == old(ran)
      ensures !old(stopped) ==>
                && |ran| == |old(ran)| + |hooks| && ran[..|old(ran)|] == old(ran)
                && RunsAll(ran[|old(ran)|..], hooks)
      ensures failures == if old(stopped) then [] else Failed(ran[|old(ran)|..], fails)
    {
      failures := [];
      if stopped {
        return;
      }
      stopped := true;
      closes := closes + 1;
      ghost var before := ran;
      var snapshot := hooks;
      var a := new Hook[|snapshot|](i requires 0 <= i < |snapshot| => snapshot[i]);
      assert a[..] == snapshot;
      SortByPriority(a);
      Q.SameMembers(a[..], snapshot);
      ghost var order := a[..];
      for i := 0 to a.Length
        invariant Valid() && stopped
        invariant ran == before + order[..i]
        invariant a[..] == order && failures == Failed(order[..i], fails)
      {
        var h := a[i];
        FailedStep(order, i, fails);
        Q.Associates(before, order[..i], [h]);
        ran := ran + [h];
        if fails(h) {
          failures := failures + [h];
        }
      }
      assert order[..a.Length] == order && ran == before + order;
    }
  }

  // ---- All interleavings of registrations, listeners and callers ----

  type ThreadId = nat

  /** Where a goroutine stands in Listen or Shutdown. */
  datatype Pc = Listening | Calling | Won | Closed | Running(order: seq<Hook>, next: nat) | Returned

  datatype State = State(hooks: seq<Hook>, stopped: bool, closes: nat, owner: Option<ThreadId>,
                         snapshot: Option<seq<Hook>>, ran: seq<Hook>, threads: map<ThreadId, Pc>)

  const INITIAL := State([], false, 0, None, None, [], map[])

  datatype Step =
    | AddHook(name: string)
    | AddPriorityHook(name: string, priority: int)
    | Listen(t: ThreadId)
    | Call(t: ThreadId)
    | Signal(t: ThreadId)
    | Release(t: ThreadId)
    | Cas(t: ThreadId)
    | Close(t: ThreadId)
    | Snapshot(t: ThreadId, order: seq<Hook>)
    | RunHook(t: ThreadId, failed: bool)
    | Finish(t: ThreadId)

  predicate At(s: State, t: ThreadId, pc: Pc) {
    t in s.threads && s.threads[t] == pc
  }

  predicate Enabled(s: State, step: Step) {
    match step
    case AddHook(_) => true
    case AddPriorityHook(_, _) => true
    case Listen(t) => t !in s.threads
    case Call(t) => t !in s.threads
    case Signal(t) => At(s, t, Listening)
    case Release(t) => At(s, t, Listening) && s.closes > 0
    case Cas(t) => At(s, t, Calling)
    case Close(t) => At(s, t, Won)
    case Snapshot(t, order) => At(s, t, Closed) && RunsAll(order, s.hooks)
    case RunHook(t, _) => t in s.threads && s.threads[t].Running? && s.threads[t].next < |s.threads[t].order|
    case Finish(t) => t in s.threads && s.threads[t].Running? && s.threads[t].next == |s.threads[t].order|
  }

  function Goto(s: State, t: ThreadId, pc: Pc): State {
    s.(threads := s.threads[t := pc])
  }

  function Next(s: State, step: Step): State
    requires Enabled(s, step)
  {
    match step
    case AddHook(name) => s.(hooks := s.hooks + [DefaultHook(s.hooks, name)])
    case AddPriorityHook(name, priority) => s.(hooks := s.hooks + [PriorityHook(s.hooks, name, priority)])
    case Listen(t) => Goto(s, t, Listening)
    case Call(t) => Goto(s, t, Calling)
    case Signal(t) => Goto(s, t, Calling)
    case Release(t) => Goto(s, t, Returned)
    case Cas(t) => if s.stopped then Goto(s, t, Returned) else Goto(s, t, Won).(stopped := true, owner := Some(t))
    case Close(t) => Goto(s, t, Closed).(closes := s.closes + 1)
    case Snapshot(t, order) => Goto(s, t, Running(order, 0)).(snapshot := Some(s.hooks))
    case RunHook(t, _) =>
      var Running(order, next) := s.threads[t];
      Goto(s, t, Running(order, next + 1)).(ran := s.ran + [order[next]])
    case Finish(t) => Goto(s, t, Returned)
  }

  predicate Legal(s: State, steps: seq<Step>)
    decreases |steps|
  {
    steps == [] || (Enabled(s, steps[0]) && Legal(Next(s, steps[0]), steps[1..]))
  }

  function Exec(s: State, steps: seq<Step>): State
    requires Legal(s, steps)
    decreases |steps|
  {
    if steps == [] then s else Exec(Next(s, steps[0]), steps[1..])
  }

  predicate Active(pc: Pc) {
    pc.Won? || pc.Closed? || pc.Running?
  }

  /** What the thread that won the compare-and-swap has done so far. */
  predicate OwnerProgress(s: State, pc: Pc) {
    match pc
    case Won => s.closes == 0 && s.snapshot == None && s.ran == []
    case Closed => s.closes == 1 && s.snapshot == None && s.ran == []
    case Running(order, next) =>
      s.closes == 1 && s.snapshot.Some? && s.snapshot.value <= s.hooks && RunsAll(order, s.snapshot.value)
      && next <= |order| && s.ran == order[..next]
    case Returned =>
      s.closes == 1 && s.snapshot.Some? && s.snapshot.value <= s.hooks && RunsAll(s.ran, s.snapshot.value)
    case _ => false
  }

  predicate Inv(s: State) {
    && Registered(s.hooks)
    && (s.stopped <==> s.owner.Some?)
    && (forall t :: t in s.threads && Active(s.threads[t]) ==> s.owner == Some(t))
    && (s.owner.None? ==> s.closes == 0 && s.snapshot == None && s.ran == [])
    && (s.owner.Some? ==> s.owner.value in s.threads && OwnerProgress(s, s.threads[s.owner.value]))
  }

  lemma {:induction false} RunHookKeepsInv(s: State, t: ThreadId, failed: bool)
    requires Inv(s) && Enabled(s, RunHook(t, failed))
    ensures Inv(Next(s, RunHook(t, failed)))
  {
    var Running(order, next) := s.threads[t];
    assert order[..next + 1] == order[..next] + [order[next]];
  }

  lemma {:induction false} FinishKeepsInv(s: State, t: ThreadId)
    requires Inv(s) && Enabled(s, Finish(t))
    ensures Inv(Next(s, Finish(t)))
  {
    assert s.threads[t].order[..s.threads[t].next] == s.threads[t].order;
  }

  lemma {:induction false} RegistrationKeepsInv(s: State, h: Hook)
    requires Inv(s) && h.id == |s.hooks| && (h.byDefault ==> h.priority == h.id)
    ensures Inv(s.(hooks := s.hooks + [h]))
  {
    assert s.hooks <= s.hooks + [h];
  }

  lemma {:induction false} NextKeepsInv(s: State, step: Step)
    requires Inv(s) && Enabled(s, step)
    ensures Inv(Next(s, step))
  {
    match step
    case AddHook(name) => RegistrationKeepsInv(s, DefaultHook(s.hooks, name));
    case AddPriorityHook(name, priority) => RegistrationKeepsInv(s, PriorityHook(s.hooks, name, priority));
    case RunHook(t, failed) => RunHookKeepsInv(s, t, failed);
    case Finish(t) => FinishKeepsInv(s, t);
    case _ =>
  }

  lemma {:induction false} RunKeepsInv(s: State, steps: seq<Step>)
    requires Inv(s) && Legal(s, steps)
    ensures Inv(Exec(s, steps))
    decreases |steps|
  {
    if steps != [] {
      NextKeepsInv(s, steps[0]);
      RunKeepsInv(Next(s, steps[0]), steps[1..]);
    }
  }

  /**
    In every interleaving: stopCh is closed at most once, hooks run only after the close and
    are a prefix of one descending run of the snapshot, and once the winner has returned every
    hook of the snapshot ran exactly once.
  */
  lemma {:induction false} ShutdownSafety(steps: seq<Step>)
    requires Legal(INITIAL, steps)
    ensures var s := Exec(INITIAL, steps);
            && s.closes <= 1
            && (s.ran != [] ==> s.closes == 1 && s.snapshot.Some?)
            && (s.snapshot.Some? ==> s.snapshot.value <= s.hooks
                                     && exists order :: RunsAll(order, s.snapshot.value) && s.ran <= order)
            && (forall t, u :: t in s.threads && u in s.threads && Active(s.threads[t]) && Active(s.threads[u]) ==>
                  t == u)
            && (s.owner.Some? && At(s, s.owner.value, Returned) ==>
                   s.snapshot.Some? && RunsAll(s.ran, s.snapshot.value))
  {
    RunKeepsInv(INITIAL, steps);
    var s := Exec(INITIAL, steps);
    if s.snapshot.Some? {
      var pc := s.threads[s.owner.value];
      var order := if pc.Running? then pc.order else s.ran;
      assert RunsAll(order, s.snapshot.value) && s.ran <= order;
    }
  }

  /** In every interleaving, of two AddHook hooks that ran the later registered ran first. */
  lemma {:induction false} ReverseOrderInEveryRun(steps: seq<Step>, p: nat, q: nat)
    requires Legal(INITIAL, steps)
    requires var ran := Exec(INITIAL, steps).ran;
             p < |ran| && q < |ran| && ran[p].byDefault && ran[q].byDefault
    ensures p < q <==> Exec(INITIAL, steps).ran[p].id > Exec(INITIAL, steps).ran[q].id
  {
    RunKeepsInv(INITIAL, steps);
    var s := Exec(INITIAL, steps);
    var pc := s.threads[s.owner.value];
    var order := if pc.Running? then pc.order else s.ran;
    DefaultHooksRunInReverse(order, s.snapshot.value, p, q);
  }

  /**
    Wait does not mean that shutdown is complete: in every interleaving the close that
    releases it comes before the snapshot is taken and before any hook has run.
  */
  lemma {:induction false} WaitIsReleasedBeforeAnyHook(steps: seq<Step>, t: ThreadId)
    requires Legal(INITIAL, steps) && Enabled(Exec(INITIAL, steps), Close(t))
    ensures var s := Next(Exec(INITIAL, steps), Close(t));
            s.closes == 1 && s.snapshot == None && s.ran == []
  {
    RunKeepsInv(INITIAL, steps);
  }

  // ---- Registrations, and what they mean for the order ----

  /** What a caller registers: a hook without a priority, or one with a priority of its own. */
  datatype Registration = WithoutPriority(name: string) | WithPriority(name: string, priority: int)

  /** The registrations of a run, in order. */
  function Registrations(steps: seq<Step>): seq<Registration>
    decreases |steps|
  {
    if steps == [] then []
    else
      match steps[0]
      case AddHook(name) => [WithoutPriority(name)] + Registrations(steps[1..])
      case AddPriorityHook(name, priority) => [WithPriority(name, priority)] + Registrations(steps[1..])
      case _ => Registrations(steps[1..])
  }

  /** A hook's priority: its own, or else the number of hooks registered before it. */
  function PriorityOf(regs: seq<Registration>, i: nat): int
    requires i < |regs|
  {
    match regs[i] case WithPriority(_, priority) => priority case WithoutPriority(_) => i
  }

  /** The hook that is registered after `n` others. */
  function HookFor(n: nat, reg: Registration): Hook {
    match reg
    case WithoutPriority(name) => Hook(n, name, n, true)
    case WithPriority(name, priority) => Hook(n, name, priority, false)
  }

  function HooksFor(n: nat, regs: seq<Registration>): (hooks: seq<Hook>)
    ensures |hooks| == |regs| && forall i :: 0 <= i < |regs| ==> hooks[i] == HookFor(n + i, regs[i])
  {
    seq(|regs|, i requires 0 <= i < |regs| => HookFor(n + i, regs[i]))
  }

  lemma {:induction false} HooksForCons(n: nat, reg: Registration, regs: seq<Registration>)
    ensures HooksFor(n, [reg] + regs) == [HookFor(n, reg)] + HooksFor(n + 1, regs)
  {
  }

  lemma {:induction false} StepRegisters(s: State, step: Step)
    requires Enabled(s, step)
    ensures Next(s, step).hooks ==
            match step
            case AddHook(name) => s.hooks + [HookFor(|s.hooks|, WithoutPriority(name))]
            case AddPriorityHook(name, priority) => s.hooks + [HookFor(|s.hooks|, WithPriority(name, priority))]
            case _ => s.hooks
  {
  }

  lemma {:induction false} StepsRegister(s: State, steps: seq<Step>)
    requires Legal(s, steps)
    ensures Exec(s, steps).hooks == s.hooks + HooksFor(|s.hooks|, Registrations(steps))
    decreases |steps|
  {
    if steps == [] {
      assert s.hooks + [] == s.hooks;
    } else {
      var rest := Registrations(steps[1..]);
      StepRegisters(s, steps[0]);
      StepsRegister(Next(s, steps[0]), steps[1..]);
      match steps[0]
      case AddHook(name) => MoreHooks(s.hooks, WithoutPriority(name), rest);
      case AddPriorityHook(name, priority) => MoreHooks(s.hooks, WithPriority(name, priority), rest);
      case _ =>
    }
  }

  lemma {:induction false} MoreHooks(hooks: seq<Hook>, reg: Registration, regs: seq<Registration>)
    ensures hooks + [HookFor(|hooks|, reg)] + HooksFor(|hooks| + 1, regs) == hooks + HooksFor(|hooks|, [reg] + regs)
  {
    HooksForCons(|hooks|, reg, regs);
    Q.Associates(hooks, [HookFor(|hooks|, reg)], HooksFor(|hooks| + 1, regs));
  }

  /** The hooks of a run are its registrations in order, each with its name and with exactly its priority. */
  lemma {:induction false} HooksAreRegistered(steps: seq<Step>)
    requires Legal(INITIAL, steps)
    ensures Exec(INITIAL, steps).hooks == HooksFor(0, Registrations(steps))
  {
    StepsRegister(INITIAL, steps);
    assert [] + HooksFor(0, Registrations(steps)) == HooksFor(0, Registrations(steps));
  }

  /**
    In every interleaving, of two hooks that ran the one with the larger priority ran first: a
    priority given to AddPriorityHook counts as it is, and one without counts the hooks before it.
  */
  lemma {:induction false} LargerPriorityRunsFirst(steps: seq<Step>, p: nat, q: nat)
    requires Legal(INITIAL, steps) && p < |Exec(INITIAL, steps).ran| && q < |Exec(INITIAL, steps).ran|
    ensures var ran, regs := Exec(INITIAL, steps).ran, Registrations(steps);
            && ran[p].id < |regs| && ran[q].id < |regs|
            && ran[p].name == regs[ran[p].id].name && ran[q].name == regs[ran[q].id].name
            && (PriorityOf(regs, ran[p].id) > PriorityOf(regs, ran[q].id) ==> p < q)
  {
    RunKeepsInv(INITIAL, steps);
    HooksAreRegistered(steps);
    var s := Exec(INITIAL, steps);
    RanIsRegistered(s, p);
    RanIsRegistered(s, q);
    var pc := s.threads[s.owner.value];
    var order := if pc.Running? then pc.order else s.ran;
    assert order[p] == s.ran[p] && order[q] == s.ran[q];
    if q < p {
      assert order[q].priority >= order[p].priority;
    }
  }

  lemma {:induction false} RanIsRegistered(s: State, p: nat)
    requires Inv(s) && p < |s.ran|
    ensures s.ran[p].id < |s.hooks| && s.hooks[s.ran[p].id] == s.ran[p]
  {
    var pc := s.threads[s.owner.value];
    var order := if pc.Running? then pc.order else s.ran;
    Q.SameMembers(order, s.snapshot.value);
    assert order[p] == s.ran[p] && order[p] in order && order[p] in s.snapshot.value;
    var k :| 0 <= k < |s.snapshot.value| && s.snapshot.value[k] == order[p];
    assert s.hooks[k] == s.snapshot.value[k];
  }

  /** The next thing a goroutine does; a listener waits for a signal. */
  function NextStepOf(s: State, t: ThreadId): Step
    requires t in s.threads && s.threads[t] != Returned
  {
    match s.threads[t]
    case Listening => Signal(t)
    case Calling => Cas(t)
    case Won => Close(t)
    case Closed => Snapshot(t, Sorted(s.hooks))
    case Running(order, next) => if next < |order| then RunHook(t, false) else Finish(t)
  }

  /**
    Nobody is ever stuck: every goroutine that has not returned can take its next step, and a
    listener is free to return once stopCh is closed.
  */
  lemma {:induction false} NobodyIsStuck(steps: seq<Step>, t: ThreadId)
    requires Legal(INITIAL, steps) && t in Exec(INITIAL, steps).threads && Exec(INITIAL, steps).threads[t] != Returned
    ensures var s := Exec(INITIAL, steps);
            && Enabled(s, NextStepOf(s, t))
            && (s.threads[t] == Listening ==> (Enabled(s, Release(t)) <==> s.closes == 1))
  {
    RunKeepsInv(INITIAL, steps);
    var s := Exec(INITIAL, steps);
    if s.threads[t] == Closed {
      SortedRunsAll(s.hooks);
    }
  }

  function Insert(h: Hook, hooks: seq<Hook>): seq<Hook> {
    if hooks == [] || h.priority >= hooks[0].priority then [h] + hooks else [hooks[0]] + Insert(h, hooks[1..])
  }

  function Sorted(hooks: seq<Hook>): seq<Hook> {
    if hooks == [] then [] else Insert(hooks[0], Sorted(hooks[1..]))
  }

  lemma {:induction false} InsertPermutes(h: Hook, hooks: seq<Hook>)
    ensures multiset(Insert(h, hooks)) == multiset{h} + multiset(hooks)
  {
    if hooks != [] && h.priority < hooks[0].priority {
      InsertPermutes(h, hooks[1..]);
      assert hooks == [hooks[0]] + hooks[1..];
    }
  }

  lemma {:induction false} DescendingCons(h: Hook, hooks: seq<Hook>)
    requires Descending(hooks) && (hooks == [] || h.priority >= hooks[0].priority)
    ensures Descending([h] + hooks)
  {
    var all := [h] + hooks;
    forall i, j | 0 <= i < j < |all| ensures all[i].priority >= all[j].priority {
      assert all[j] == hooks[j - 1];
      assert i > 0 ==> all[i] == hooks[i - 1];
      assert j > 1 ==> hooks[0].priority >= hooks[j - 1].priority;
    }
  }

  lemma {:induction false} InsertSorts(h: Hook, hooks: seq<Hook>)
    requires Descending(hooks)
    ensures Descending(Insert(h, hooks)) && Insert(h, hooks) != []
    ensures Insert(h, hooks)[0] == h || (hooks != [] && Insert(h, hooks)[0] == hooks[0])
  {
    if hooks == [] || h.priority >= hooks[0].priority {
      DescendingCons(h, hooks);
    } else {
      InsertSorts(h, hooks[1..]);
      DescendingCons(hooks[0], Insert(h, hooks[1..]));
    }
  }

  /** Some run of any snapshot exists. */
  lemma {:induction false} SortedRunsAll(hooks: seq<Hook>)
    ensures RunsAll(Sorted(hooks), hooks)
  {
    if hooks != [] {
      SortedRunsAll(hooks[1..]);
      InsertPermutes(hooks[0], Sorted(hooks[1..]));
      InsertSorts(hooks[0], Sorted(hooks[1..]));
      assert hooks == [hooks[0]] + hooks[1..];
    }
  }
}
