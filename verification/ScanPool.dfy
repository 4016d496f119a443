/**
  The worker pool of DirectoryScanner.Scan (pentest/directory_scanner.go): one goroutine
  per path, a semaphore channel, a wait group, a buffered result channel, a closer and
  the collecting loop, in every interleaving. What a path check finds is a parameter.
*/
module ScanPool {
  import opened Options

  type Result = string

  /** Where a worker stands; `out` is what it has sent. */
  datatype Pc =
    | Unborn
    | Waiting
    | Holding
    | Checking
    | Sending(r: Result)
    | Releasing(out: Option<Result>)
    | Leaving(out: Option<Result>)
    | Gone(out: Option<Result>)

  datatype Main = Spawning(i: nat) | Draining | Finished

  datatype Closer = NotStarted | AwaitingGroup | Closed

  /** `check[w]` is the result of path w if the scan is not cancelled; `max` is MaxConcurrent. */
  datatype State = State(check: seq<Option<Result>>, max: nat, workers: seq<Pc>, tokens: nat, group: int,
                         cancelled: bool,
                         queue: seq<Result>, results: seq<Result>, main: Main, closer: Closer)

  function Initial(check: seq<Option<Result>>, max: nat): State {
    State(check, max, seq(|check|, i => Unborn), 0, 0, false, [], [], Spawning(0), NotStarted)
  }

  datatype Step =
    | Spawn
    | EndSpawn
    | Acquire(w: nat)
    | TestContext(w: nat)
    | CheckPath(w: nat, found: Option<Result>)
    | Send(w: nat)
    | Release(w: nat)
    | GroupDone(w: nat)
    | CloseResults
    | Receive
    | EndDrain
    | Cancel

  predicate Enabled(s: State, step: Step) {
    match step
    case Spawn => s.main.Spawning? && s.main.i < |s.workers|
    case EndSpawn => s.main.Spawning? && s.main.i == |s.workers|
    case Acquire(w) => w < |s.workers| && s.workers[w].Waiting? && s.tokens < s.max
    case TestContext(w) => w < |s.workers| && s.workers[w].Holding?
    case CheckPath(w, found) =>
      w < |s.workers| && s.workers[w].Checking? && w < |s.check| && (!s.cancelled ==> found == s.check[w])
    case Send(w) => w < |s.workers| && s.workers[w].Sending? && |s.queue| < |s.check|
    case Release(w) => w < |s.workers| && s.workers[w].Releasing? && s.tokens > 0
    case GroupDone(w) => w < |s.workers| && s.workers[w].Leaving?
    case CloseResults => s.closer == AwaitingGroup && s.group == 0
    case Receive => s.main == Draining && s.queue != []
    case EndDrain => s.main == Draining && s.queue == [] && s.closer == Closed
    case Cancel => !s.cancelled
  }

  function Move(s: State, w: nat, pc: Pc): State
    requires w < |s.workers|
  {
    s.(workers := s.workers[w := pc])
  }

  function Next(s: State, step: Step): State
    requires Enabled(s, step)
  {
    match step
    case Spawn => Move(s, s.main.i, Waiting).(group := s.group + 1, main := Spawning(s.main.i + 1))
    case EndSpawn => s.(main := Draining, closer := AwaitingGroup)
    case Acquire(w) => Move(s, w, Holding).(tokens := s.tokens + 1)
    case TestContext(w) => Move(s, w, if s.cancelled then Releasing(None) else Checking)
    case CheckPath(w, found) => Move(s, w, if found.Some? then Sending(found.value) else Releasing(None))
    case Send(w) => Move(s, w, Releasing(Some(s.workers[w].r))).(queue := s.queue + [s.workers[w].r])
    case Release(w) => Move(s, w, Leaving(s.workers[w].out)).(tokens := s.tokens - 1)
    case GroupDone(w) => Move(s, w, Gone(s.workers[w].out)).(group := s.group - 1)
    case CloseResults => s.(closer := Closed)
    case Receive => s.(results := s.results + [s.queue[0]], queue := s.queue[1..])
    case EndDrain => s.(main := Finished)
    case Cancel => s.(cancelled := true)
  }

  predicate Legal(s: State, steps: seq<Step>)
    decreases |steps|
  {
    steps == [] || (Enabled(s, steps[0]) && Legal(Next(s, steps[0]), steps[1..]))
  }

  function Exec(s: State, steps: seq<Step>): State
    requires Legal(s, steps)
    decreases |steps|
  {
    if steps == [] then s else Exec(Next(s, steps[0]), steps[1..])
  }

  // ---- Sums over the workers ----

  function Sum(ws: seq<Pc>, f: Pc -> nat): nat {
    if ws == [] then 0 else f(ws[0]) + Sum(ws[1..], f)
  }

  function TokenOf(pc: Pc): nat {
    if pc.Holding? || pc.Checking? || pc.Sending? || pc.Releasing? then 1 else 0
  }

  function MemberOf(pc: Pc): nat {
    if pc.Unborn? || pc.Gone? then 0 else 1
  }

  /** What the worker has sent. */
  function SentOut(pc: Pc): Option<Result> {
    match pc
    case Releasing(out) => out
    case Leaving(out) => out
    case Gone(out) => out
    case _ => None
  }

  function SentBy(pc: Pc): nat {
    if SentOut(pc).Some? then 1 else 0
  }

  /** Steps a worker has left; a send leaves one more for its receiver. */
  function StepsLeft(pc: Pc): nat {
    match pc
    case Unborn => 8
    case Waiting => 7
    case Holding => 6
    case Checking => 5
    case Sending(_) => 4
    case Releasing(_) => 2
    case Leaving(_) => 1
    case Gone(_) => 0
  }

  function OutOf(pc: Pc): multiset<Result> {
    if SentOut(pc).Some? then multiset{SentOut(pc).value} else multiset{}
  }

  function Outs(ws: seq<Pc>): multiset<Result> {
    if ws == [] then multiset{} else OutOf(ws[0]) + Outs(ws[1..])
  }

  lemma {:induction false} SumUpdate(ws: seq<Pc>, w: nat, pc: Pc, f: Pc -> nat)
    requires w < |ws|
    ensures Sum(ws[w := pc], f) + f(ws[w]) == Sum(ws, f) + f(pc)
  {
    if w > 0 {
      assert ws[w := pc][1..] == ws[1..][w - 1 := pc];
      SumUpdate(ws[1..], w - 1, pc, f);
    } else {
      assert ws[w := pc][1..] == ws[1..];
    }
  }

  lemma {:induction false} CountUpdate(ws: seq<Pc>, w: nat, pc: Pc, r: Result)
    requires w < |ws|
    ensures Outs(ws[w := pc])[r] + OutOf(ws[w])[r] == Outs(ws)[r] + OutOf(pc)[r]
  {
    var ws' := ws[w := pc];
    if w > 0 {
      assert ws'[0] == ws[0] && ws'[1..] == ws[1..][w - 1 := pc];
      CountUpdate(ws[1..], w - 1, pc, r);
    } else {
      assert ws'[0] == pc && ws'[1..] == ws[1..];
    }
  }

  lemma {:induction false} OutsUpdate(ws: seq<Pc>, w: nat, pc: Pc)
    requires w < |ws|
    ensures Outs(ws[w := pc]) + OutOf(ws[w]) == Outs(ws) + OutOf(pc)
  {
    var before, after := Outs(ws) + OutOf(pc), Outs(ws[w := pc]) + OutOf(ws[w]);
    forall r ensures after[r] == before[r] {
      CountUpdate(ws, w, pc, r);
    }
  }

  /** Fewer than all have sent if one has not. */
  lemma {:induction false} SomeoneHasNotSent(ws: seq<Pc>, w: nat)
    requires w < |ws| && SentBy(ws[w]) == 0
    ensures Sum(ws, SentBy) < |ws|
  {
    if w > 0 {
      SomeoneHasNotSent(ws[1..], w - 1);
    } else {
      SentAtMost(ws[1..]);
    }
  }

  lemma {:induction false} SentAtMost(ws: seq<Pc>)
    ensures Sum(ws, SentBy) <= |ws|
  {
    if ws != [] {
      SentAtMost(ws[1..]);
    }
  }

  lemma {:induction false} SumZero(ws: seq<Pc>, f: Pc -> nat)
    ensures Sum(ws, f) == 0 <==> forall w :: 0 <= w < |ws| ==> f(ws[w]) == 0
  {
    if ws != [] {
      SumZero(ws[1..], f);
      if Sum(ws[1..], f) == 0 && f(ws[0]) == 0 {
        forall w | 0 <= w < |ws| ensures f(ws[w]) == 0 {
          assert w > 0 ==> ws[w] == ws[1..][w - 1];
        }
      } else if f(ws[0]) == 0 {
        var w :| 0 <= w < |ws[1..]| && f(ws[1..][w]) != 0;
        assert ws[w + 1] == ws[1..][w];
      }
    }
  }

  // ---- Invariant ----

  predicate Spawned(s: State) {
    match s.main
    case Spawning(i) =>
      && i <= |s.workers| && s.closer == NotStarted
      && forall w :: 0 <= w < |s.workers| ==> (s.workers[w].Unborn? <==> w >= i)
    case _ => (forall w :: 0 <= w < |s.workers| ==> !s.workers[w].Unborn?) && s.closer != NotStarted
  }

  /** Without cancellation every worker has found what its path holds. */
  predicate Faithful(s: State)
    requires |s.workers| == |s.check|
  {
    !s.cancelled ==> forall w :: 0 <= w < |s.workers| ==> FaithfulPc(s.workers[w], s.check[w])
  }

  predicate FaithfulPc(pc: Pc, found: Option<Result>) {
    (pc.Sending? ==> found == Some(pc.r)) && ((pc.Releasing? || pc.Leaving? || pc.Gone?) ==> pc.out == found)
  }

  /** The semaphore, the wait group and the result channel hold what the workers say. */
  predicate Counted(s: State) {
    && s.tokens == Sum(s.workers, TokenOf) && s.tokens <= s.max
    && s.group == Sum(s.workers, MemberOf)
    && |s.queue| + |s.results| == Sum(s.workers, SentBy)
  }

  predicate Conserved(s: State) {
    multiset(s.queue) + multiset(s.results) == Outs(s.workers)
  }

  predicate Inv(s: State) {
    && |s.workers| == |s.check|
    && Spawned(s) && Counted(s) && Conserved(s) && Faithful(s)
    && (s.closer == Closed ==> s.group == 0)
    && (s.main == Finished ==> s.closer == Closed && s.queue == [])
  }

  /** The worker a step moves, and where to. */
  function Mover(s: State, step: Step): Option<(nat, Pc)>
    requires Enabled(s, step)
  {
    match step
    case Spawn => Some((s.main.i, Waiting))
    case Acquire(w) => Some((w, Holding))
    case TestContext(w) => Some((w, if s.cancelled then Releasing(None) else Checking))
    case CheckPath(w, found) => Some((w, if found.Some? then Sending(found.value) else Releasing(None)))
    case Send(w) => Some((w, Releasing(Some(s.workers[w].r))))
    case Release(w) => Some((w, Leaving(s.workers[w].out)))
    case GroupDone(w) => Some((w, Gone(s.workers[w].out)))
    case _ => None
  }

  lemma {:induction false} NextMoves(s: State, step: Step)
    requires Enabled(s, step)
    ensures var m := Mover(s, step);
            if m.Some? then m.value.0 < |s.workers| && Next(s, step).workers == s.workers[m.value.0 := m.value.1]
            else Next(s, step).workers == s.workers
  {
  }

  /** Each move changes the counts by what it changes for its worker. */
  lemma {:induction false} MoverEffect(s: State, step: Step, w: nat, pc: Pc)
    requires Inv(s) && Enabled(s, step) && Mover(s, step) == Some((w, pc))
    ensures w < |s.workers|
    ensures var s', was := Next(s, step), s.workers[w];
            && s'.tokens - s.tokens == TokenOf(pc) - TokenOf(was) && s'.tokens <= s'.max
            && s'.group - s.group == MemberOf(pc) - MemberOf(was)
            && s'.results == s.results
            && |s'.queue| - |s.queue| == SentBy(pc) - SentBy(was)
  {
  }

  /** A worker that moves without sending has sent what it had sent before. */
  lemma {:induction false} MoverKeepsOut(s: State, step: Step, w: nat, pc: Pc)
    requires Spawned(s) && Enabled(s, step) && Mover(s, step) == Some((w, pc)) && w < |s.workers| && !step.Send?
    ensures SentOut(s.workers[w]) == SentOut(pc) && Next(s, step).queue == s.queue
  {
    if step.Spawn? {
      assert s.workers[s.main.i].Unborn?;
    }
  }

  /** And the queue by what it has sent. */
  lemma {:induction false} MoverSends(s: State, step: Step, w: nat, pc: Pc)
    requires Spawned(s) && Enabled(s, step) && Mover(s, step) == Some((w, pc)) && w < |s.workers|
    ensures multiset(Next(s, step).queue) + OutOf(s.workers[w]) == multiset(s.queue) + OutOf(pc)
  {
    if step.Send? {
      assert OutOf(s.workers[w]) == multiset{} && OutOf(pc) == multiset{s.workers[w].r};
    } else {
      MoverKeepsOut(s, step, w, pc);
    }
  }

  lemma {:induction false} NextKeepsCounted(s: State, step: Step)
    requires Inv(s) && Enabled(s, step)
    ensures Counted(Next(s, step))
  {
    NextMoves(s, step);
    var m := Mover(s, step);
    if m.Some? {
      var (w, pc) := m.value;
      MoverEffect(s, step, w, pc);
      SumUpdate(s.workers, w, pc, TokenOf);
      SumUpdate(s.workers, w, pc, MemberOf);
      SumUpdate(s.workers, w, pc, SentBy);
    }
  }

  lemma {:induction false} NextKeepsConserved(s: State, step: Step)
    requires Inv(s) && Enabled(s, step)
    ensures Conserved(Next(s, step))
  {
    var s' := Next(s, step);
    NextMoves(s, step);
    var m := Mover(s, step);
    if m.Some? {
      var (w, pc) := m.value;
      MoverEffect(s, step, w, pc);
      MoverSends(s, step, w, pc);
      OutsUpdate(s.workers, w, pc);
      ConservedMove(multiset(s.queue), multiset(s'.queue), multiset(s.results), Outs(s.workers), Outs(s'.workers),
                    OutOf(s.workers[w]), OutOf(pc));
    } else if step.Receive? {
      ReceiveKeepsConserved(s);
    }
  }

  lemma {:induction false} ReceiveKeepsConserved(s: State)
    requires Inv(s) && Enabled(s, Receive)
    ensures Conserved(Next(s, Receive))
  {
    assert s.queue == [s.queue[0]] + s.queue[1..];
  }

  lemma {:induction false} ConservedMove(q: multiset<Result>, q': multiset<Result>, results: multiset<Result>,
              outs: multiset<Result>, outs': multiset<Result>,
                      was: multiset<Result>, now: multiset<Result>)
    requires q + results == outs && q' + was == q + now && outs' + was == outs + now
    ensures q' + results == outs'
  {
    forall x ensures (q' + results)[x] == outs'[x] {
      assert (q' + was)[x] == (q + now)[x] && (outs' + was)[x] == (outs + now)[x];
    }
  }

  lemma {:induction false} NextKeepsSpawned(s: State, step: Step)
    requires Inv(s) && Enabled(s, step)
    ensures Spawned(Next(s, step))
  {
    NextMoves(s, step);
    if Mover(s, step).Some? && !step.Spawn? {
      var (w, pc) := Mover(s, step).value;
      assert !pc.Unborn? && !s.workers[w].Unborn?;
    }
  }

  lemma {:induction false} NextKeepsFaithful(s: State, step: Step)
    requires Inv(s) && Enabled(s, step)
    ensures |Next(s, step).workers| == |Next(s, step).check| && Faithful(Next(s, step))
  {
    NextMoves(s, step);
    if Mover(s, step).Some? {
      var (w, pc) := Mover(s, step).value;
      if !s.cancelled {
        assert FaithfulPc(s.workers[w], s.check[w]);
        assert FaithfulPc(pc, s.check[w]);
      }
    }
  }

  lemma {:induction false} NextKeepsInv(s: State, step: Step)
    requires Inv(s) && Enabled(s, step)
    ensures Inv(Next(s, step))
  {
    NextKeepsCounted(s, step);
    NextKeepsConserved(s, step);
    NextKeepsSpawned(s, step);
    NextKeepsFaithful(s, step);
    if s.closer == Closed {
      SumZero(s.workers, MemberOf);
    }
  }

  lemma {:induction false} InitialSums(ws: seq<Pc>)
    requires forall w :: 0 <= w < |ws| ==> ws[w] == Unborn
    ensures Sum(ws, TokenOf) == Sum(ws, MemberOf) == Sum(ws, SentBy) == 0 && Outs(ws) == multiset{}
  {
    if ws != [] {
      InitialSums(ws[1..]);
    }
  }

  lemma {:induction false} RunKeepsInv(s: State, steps: seq<Step>)
    requires Inv(s) && Legal(s, steps)
    ensures Inv(Exec(s, steps)) && Exec(s, steps).check == s.check && Exec(s, steps).max == s.max
    decreases |steps|
  {
    if steps != [] {
      NextKeepsInv(s, steps[0]);
      RunKeepsInv(Next(s, steps[0]), steps[1..]);
    }
  }

  lemma {:induction false} ReachableInv(check: seq<Option<Result>>, max: nat, steps: seq<Step>)
    requires Legal(Initial(check, max), steps)
    ensures var s := Exec(Initial(check, max), steps); Inv(s) && s.check == check && s.max == max
  {
    InitialSums(Initial(check, max).workers);
    RunKeepsInv(Initial(check, max), steps);
  }

  // ---- Theorems ----

  /** The workers between acquire and release. */
  function Busy(s: State): nat {
    Sum(s.workers, TokenOf)
  }

  /**
    In every interleaving at most MaxConcurrent workers are busy, and a worker about to send
    can: the channel has room and is open.
  */
  lemma {:induction false} PoolSafety(check: seq<Option<Result>>, max: nat, steps: seq<Step>)
    requires Legal(Initial(check, max), steps)
    ensures var s := Exec(Initial(check, max), steps);
            && Busy(s) <= max
            && forall w :: 0 <= w < |s.workers| && s.workers[w].Sending? ==> Enabled(s, Send(w)) && s.closer != Closed
  {
    ReachableInv(check, max, steps);
    var s := Exec(Initial(check, max), steps);
    SumZero(s.workers, MemberOf);
    forall w | 0 <= w < |s.workers| && s.workers[w].Sending? ensures Enabled(s, Send(w)) && s.closer != Closed {
      SomeoneHasNotSent(s.workers, w);
    }
  }

  function Found(check: seq<Option<Result>>): multiset<Result> {
    if check == [] then multiset{}
    else (if check[0].Some? then multiset{check[0].value} else multiset{}) + Found(check[1..])
  }

  lemma {:induction false} GoneOuts(ws: seq<Pc>, check: seq<Option<Result>>)
    requires |ws| == |check| && forall w :: 0 <= w < |ws| ==> ws[w].Gone?
    requires forall w :: 0 <= w < |ws| ==> ws[w].out == check[w]
    ensures Outs(ws) == Found(check)
  {
    if ws != [] {
      GoneOuts(ws[1..], check[1..]);
    }
  }

  /** A scan that was not cancelled returns, as a multiset, exactly the paths that exist. */
  lemma {:induction false} ScanFindsExactlyTheExistingPaths(check: seq<Option<Result>>, max: nat, steps: seq<Step>)
    requires Legal(Initial(check, max), steps)
    requires Exec(Initial(check, max), steps).main == Finished && !Exec(Initial(check, max), steps).cancelled
    ensures multiset(Exec(Initial(check, max), steps).results) == Found(check)
  {
    ReachableInv(check, max, steps);
    var s := Exec(Initial(check, max), steps);
    SumZero(s.workers, MemberOf);
    GoneOuts(s.workers, check);
    assert multiset(s.queue) == multiset{};
  }

  function Measure(s: State): nat {
    Sum(s.workers, StepsLeft) + |s.queue| + (if s.main.Spawning? then 2 else if s.main == Draining then 1 else 0)
    + (if s.closer == Closed then 0 else 1) + (if s.cancelled then 0 else 1)
  }

  lemma {:induction false} MoverMeasure(s: State, step: Step, w: nat, pc: Pc)
    requires Inv(s) && Enabled(s, step) && Mover(s, step) == Some((w, pc))
    ensures w < |s.workers|
    ensures var s' := Next(s, step);
            && StepsLeft(pc) + |s'.queue| < StepsLeft(s.workers[w]) + |s.queue|
            && (s'.main.Spawning? <==> s.main.Spawning?) && (s'.main == Draining <==> s.main == Draining)
            && s'.closer == s.closer && s'.cancelled == s.cancelled
  {
  }

  /** Every step brings the pool closer to its end, so no interleaving runs forever. */
  lemma {:induction false} EveryStepDecreases(s: State, step: Step)
    requires Inv(s) && Enabled(s, step)
    ensures Measure(Next(s, step)) < Measure(s)
  {
    NextMoves(s, step);
    var m := Mover(s, step);
    if m.Some? {
      var (w, pc) := m.value;
      MoverMeasure(s, step, w, pc);
      SumUpdate(s.workers, w, pc, StepsLeft);
    }
  }

  lemma {:induction false} StepsSpendMeasure(s: State, steps: seq<Step>)
    requires Inv(s) && Legal(s, steps)
    ensures |steps| + Measure(Exec(s, steps)) <= Measure(s)
    decreases |steps|
  {
    if steps != [] {
      NextKeepsInv(s, steps[0]);
      EveryStepDecreases(s, steps[0]);
      StepsSpendMeasure(Next(s, steps[0]), steps[1..]);
    }
  }

  lemma {:induction false} UnbornSteps(ws: seq<Pc>)
    requires forall w :: 0 <= w < |ws| ==> ws[w] == Unborn
    ensures Sum(ws, StepsLeft) == 8 * |ws|
  {
    if ws != [] {
      UnbornSteps(ws[1..]);
    }
  }

  /** A scan of n paths is over after at most 8n + 4 steps. */
  lemma {:induction false} ScanIsBounded(check: seq<Option<Result>>, max: nat, steps: seq<Step>)
    requires Legal(Initial(check, max), steps)
    ensures |steps| <= 8 * |check| + 4
  {
    InitialSums(Initial(check, max).workers);
    UnbornSteps(Initial(check, max).workers);
    StepsSpendMeasure(Initial(check, max), steps);
  }

  /** The next step of a worker that is not waiting for a token. */
  function StepOf(s: State, w: nat): Step
    requires w < |s.workers| && w < |s.check| && !s.workers[w].Unborn? && !s.workers[w].Gone?
  {
    match s.workers[w]
    case Waiting => Acquire(w)
    case Holding => TestContext(w)
    case Checking => CheckPath(w, s.check[w])
    case Sending(_) => Send(w)
    case Releasing(_) => Release(w)
    case Leaving(_) => GroupDone(w)
  }

  /** With a token to give, some step other than a cancellation is possible until the scan has finished. */
  lemma {:induction false} SomeStepIsPossible(s: State) returns (step: Step)
    requires Inv(s) && s.max > 0 && s.main != Finished
    ensures Enabled(s, step) && step != Cancel
  {
    SumZero(s.workers, MemberOf);
    SumZero(s.workers, TokenOf);
    if s.main.Spawning? {
      step := if s.main.i < |s.workers| then Spawn else EndSpawn;
    } else if w :| 0 <= w < |s.workers| && TokenOf(s.workers[w]) != 0 {
      step := StepOf(s, w);
      if s.workers[w].Sending? {
        SomeoneHasNotSent(s.workers, w);
      }
    } else if w :| 0 <= w < |s.workers| && MemberOf(s.workers[w]) != 0 {
      step := StepOf(s, w);
    } else {
      step := if s.closer == AwaitingGroup then CloseResults else if s.queue != [] then Receive else EndDrain;
    }
  }

  ghost predicate Stuck(s: State) {
    s.main != Finished && forall step :: Enabled(s, step) ==> step == Cancel
  }

  /** All workers spawned, none with a token. */
  function AllWaiting(check: seq<Option<Result>>, max: nat, i: nat): State
    requires i <= |check|
  {
    Initial(check, max).(workers := seq(|check|, w => if w < i then Waiting else Unborn),
                         group := i, main := Spawning(i))
  }

  lemma {:induction false} Extend(s: State, steps: seq<Step>, step: Step)
    requires Legal(s, steps) && Enabled(Exec(s, steps), step)
    ensures Legal(s, steps + [step]) && Exec(s, steps + [step]) == Next(Exec(s, steps), step)
    decreases |steps|
  {
    if steps == [] {
      assert (steps + [step])[1..] == [];
    } else {
      assert (steps + [step])[1..] == steps[1..] + [step];
      Extend(Next(s, steps[0]), steps[1..], step);
    }
  }

  lemma {:induction false} SpawnAll(check: seq<Option<Result>>, max: nat, i: nat) returns (steps: seq<Step>)
    requires i <= |check|
    ensures Legal(Initial(check, max), steps) && Exec(Initial(check, max), steps) == AllWaiting(check, max, i)
  {
    if i == 0 {
      steps := [];
      assert AllWaiting(check, max, 0).workers == Initial(check, max).workers;
    } else {
      steps := SpawnAll(check, max, i - 1);
      Extend(Initial(check, max), steps, Spawn);
      steps := steps + [Spawn];
      assert AllWaiting(check, max, i).workers == AllWaiting(check, max, i - 1).workers[i - 1 := Waiting];
    }
  }

  /** No interleaving gets stuck exactly when MaxConcurrent is positive (there always is a path to scan). */
  lemma {:induction false} NeverStuckIffTokens(check: seq<Option<Result>>, max: nat)
    requires check != []
    ensures (forall steps :: Legal(Initial(check, max), steps) ==> !Stuck(Exec(Initial(check, max), steps))) <==>
            max > 0
  {
    if max > 0 {
      forall steps | Legal(Initial(check, max), steps) ensures !Stuck(Exec(Initial(check, max), steps)) {
        ReachableInv(check, max, steps);
        var s := Exec(Initial(check, max), steps);
        if s.main != Finished {
          var step := SomeStepIsPossible(s);
        }
      }
    } else {
      var steps := SpawnAll(check, max, |check|);
      Extend(Initial(check, max), steps, EndSpawn);
      var s := Exec(Initial(check, max), steps + [EndSpawn]);
      assert s.workers[0] == Waiting;
      assert Stuck(s);
    }
  }
}
