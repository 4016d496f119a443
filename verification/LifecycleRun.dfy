/**
  The steps of the application's Run and of its lifecycle-stop hook (bootstrap/application.go),
  interleaved with everything else, do what the methods of the lifecycle manager do in one go
  (bootstrap/lifecycle.go): same order, same components left running, same failure.
*/
module LifecycleRun {
  import opened Application
  import opened Options
  import L = Lifecycle
  import SM = ShutdownManager

  /** The application's component i is the object registered at place i. */
  predicate OwnObjects(cs: seq<L.Component>) {
    forall i :: 0 <= i < |cs| ==> cs[i].id == i
  }

  /** What the components answered while starting and while stopping, and whether a hook of Stop failed. */
  datatype Answers = Answers(start: seq<L.Answer>, stop: seq<L.Answer>, hookFails: bool)

  function Put(answers: seq<L.Answer>, i: int, answer: L.Answer): (r: seq<L.Answer>)
    ensures |r| == |answers|
  {
    if 0 <= i < |answers| then answers[i := answer] else answers
  }

  /** The answers so far, with the one that this step gives. */
  function Answered(w: Answers, s: State, step: Step): (r: Answers)
    requires Enabled(s, step)
    ensures |r.start| == |w.start| && |r.stop| == |w.stop|
  {
    match step
    case StartComponent(up) => w.(start := Put(w.start, s.runPc.i, L.Answer(false, up, false, false)))
    case StartFails(up) => w.(start := Put(w.start, s.runPc.i, L.Answer(true, up, false, false)))
    case RollBack(up) => w.(start := WithStop(w.start, s.runPc.k - 1, false, up))
    case StopComponent(fails, up) => w.(stop := WithStop(w.stop, s.stopPc.k - 1, fails, up))
    case EndStop(_, fails) => w.(hookFails := fails)
    case _ => w
  }

  /** The answer at a place, with this answer to the stop request. */
  function WithStop(answers: seq<L.Answer>, i: int, fails: bool, up: bool): (r: seq<L.Answer>)
    ensures |r| == |answers|
  {
    if 0 <= i < |answers| then answers[i := answers[i].(stopFails := fails, upAfterStop := up)] else answers
  }

  function AnswersFrom(w: Answers, s: State, steps: seq<Step>): (r: Answers)
    requires Legal(s, steps)
    ensures |r.start| == |w.start| && |r.stop| == |w.stop|
    decreases |steps|
  {
    if steps == [] then w else AnswersFrom(Answered(w, s, steps[0]), Next(s, steps[0]), steps[1..])
  }

  const NO_ANSWER := L.Answer(false, false, false, false)

  function NoAnswers(n: nat): Answers {
    var none := seq(n, i requires 0 <= i < n => NO_ANSWER);
    Answers(none, none, false)
  }

  /** The answers that the steps of a run give. */
  function AnswersOf(n: nat, running: set<nat>, steps: seq<Step>): (r: Answers)
    requires Legal(Initial(n, running), steps)
    ensures |r.start| == |r.stop| == n
  {
    AnswersFrom(NoAnswers(n), Initial(n, running), steps)
  }

  // ---- The calls made to the components ----

  /** The start and stop calls made so far. */
  function CallsMade(log: seq<Event>): seq<L.Event> {
    if log == [] then []
    else
      match log[|log| - 1]
      case StartAsked(i) => CallsMade(log[..|log| - 1]) + [L.StartCall(i)]
      case StopAsked(i, _) => CallsMade(log[..|log| - 1]) + [L.StopCall(i)]
      case HookRan(_) => CallsMade(log[..|log| - 1])
  }

  lemma {:induction false} CallsSnoc(log: seq<Event>, e: Event)
    ensures CallsMade(log + [e]) ==
            match e
            case StartAsked(i) => CallsMade(log) + [L.StartCall(i)]
            case StopAsked(i, _) => CallsMade(log) + [L.StopCall(i)]
            case HookRan(_) => CallsMade(log)
  {
    assert (log + [e])[..|log|] == log;
  }

  lemma {:induction false} StopCallsSnoc(places: seq<nat>, k: nat)
    ensures L.StopCalls(places + [k]) == L.StopCalls(places) + [L.StopCall(k)]
  {
  }

  lemma {:induction false} StartCallsSnoc(k: nat)
    ensures L.StartCalls(k + 1) == L.StartCalls(k) + [L.StartCall(k)]
  {
  }

  /** StopDown from the other end: who runs, and who was asked, once places n-1 down to k have been checked. */
  function CheckedDown(cs: seq<L.Component>, answers: seq<L.Answer>, running: set<nat>,
              k: nat)
    : (r: (set<nat>, seq<nat>))
    requires k <= |cs| == |answers|
    ensures L.Below(r.1, |cs|)
    decreases |cs| - k
  {
    if k == |cs| then (running, [])
    else
      var (now, places) := CheckedDown(cs, answers, running, k + 1);
      if cs[k].id in now then (L.SetRunning(now, cs[k].id, answers[k].upAfterStop), places + [k]) else (now, places)
  }

  lemma {:induction false} CheckedThenStopDown(cs: seq<L.Component>, answers: seq<L.Answer>, running: set<nat>, k: nat)
    requires k <= |cs| == |answers|
    ensures var (now, places) := CheckedDown(cs, answers, running, k);
            L.StopDown(cs, answers, running, |cs|) ==
            (L.StopDown(cs, answers, now, k).0, places + L.StopDown(cs, answers, now, k).1)
    decreases |cs| - k
  {
    if k == |cs| {
      assert [] + L.StopDown(cs, answers, running, k).1 == L.StopDown(cs, answers, running, k).1;
    } else {
      var (now, places) := CheckedDown(cs, answers, running, k + 1);
      CheckedThenStopDown(cs, answers, running, k + 1);
      if cs[k].id in now {
        var rest := L.StopDown(cs, answers, L.SetRunning(now, cs[k].id, answers[k].upAfterStop), k).1;
        assert places + ([k] + rest) == places + [k] + rest;
      }
    }
  }

  /** Checking every place is StopDown. */
  lemma {:induction false} CheckedAll(cs: seq<L.Component>, answers: seq<L.Answer>, running: set<nat>)
    requires |cs| == |answers|
    ensures CheckedDown(cs, answers, running, 0) == L.StopDown(cs, answers, running, |cs|)
  {
    CheckedThenStopDown(cs, answers, running, 0);
    var places := CheckedDown(cs, answers, running, 0).1;
    assert places + [] == places;
  }

  /** Only the answers of the places already checked matter. */
  lemma {:induction false} CheckedIsLocal(cs: seq<L.Component>, a: seq<L.Answer>, b: seq<L.Answer>,
              running: set<nat>, k: nat)
    requires k <= |cs| == |a| == |b| && a[k..] == b[k..]
    ensures CheckedDown(cs, a, running, k) == CheckedDown(cs, b, running, k)
    decreases |cs| - k
  {
    if k < |cs| {
      assert a[k] == a[k..][0] && b[k] == b[k..][0];
      assert a[k + 1..] == a[k..][1..] && b[k + 1..] == b[k..][1..];
      CheckedIsLocal(cs, a, b, running, k + 1);
    }
  }

  lemma {:induction false} StartsAreLocal(cs: seq<L.Component>, a: seq<L.Answer>, b: seq<L.Answer>,
              running: set<nat>, k: nat)
    requires k <= |cs| == |a| == |b| && a[..k] == b[..k]
    ensures L.AfterStarts(cs, a, running, k) == L.AfterStarts(cs, b, running, k)
  {
    if k > 0 {
      assert a[k - 1] == a[..k][k - 1] && b[k - 1] == b[..k][k - 1];
      assert a[..k - 1] == a[..k][..k - 1] && b[..k - 1] == b[..k][..k - 1];
      StartsAreLocal(cs, a, b, running, k - 1);
    }
  }

  predicate NoneFailBelow(answers: seq<L.Answer>, k: nat)
    requires k <= |answers|
  {
    forall i :: 0 <= i < k ==> !answers[i].startFails
  }

  lemma {:induction false} FirstFailureIs(answers: seq<L.Answer>, k: nat)
    requires k <= |answers| && NoneFailBelow(answers, k) && (k < |answers| ==> answers[k].startFails)
    ensures L.FirstFailure(answers, 0) == k
  {
    var f := L.FirstFailure(answers, 0);
    assert f < |answers| ==> answers[f].startFails;
  }

  /** Answers that differ in nothing but the stops start the same components. */
  predicate SameStarts(a: seq<L.Answer>, b: seq<L.Answer>) {
    |a| == |b| && forall i :: 0 <= i < |a| ==>
      a[i].startFails == b[i].startFails && a[i].upAfterStart == b[i].upAfterStart
  }

  lemma {:induction false} SameFirstFailure(a: seq<L.Answer>, b: seq<L.Answer>, k: nat)
    requires SameStarts(a, b) && k <= |a|
    ensures L.FirstFailure(a, k) == L.FirstFailure(b, k)
    decreases |a| - k
  {
    if k < |a| && !a[k].startFails {
      SameFirstFailure(a, b, k + 1);
    }
  }

  lemma {:induction false} SameAfterStarts(cs: seq<L.Component>, a: seq<L.Answer>, b: seq<L.Answer>,
              running: set<nat>, k: nat)
    requires SameStarts(a, b) && k <= |cs| == |a|
    ensures L.AfterStarts(cs, a, running, k) == L.AfterStarts(cs, b, running, k)
  {
    if k > 0 {
      SameAfterStarts(cs, a, b, running, k - 1);
    }
  }

  // ---- Every state of a run is one that Start or Stop passes through ----

  /** Who runs, and the calls made so far. */
  type Calls = (set<nat>, seq<L.Event>)

  function CallsIn(s: State): Calls {
    (s.running, CallsMade(s.log))
  }

  /** The first k places started, then these places asked to stop. */
  function StartsThenStops(k: nat, checked: (set<nat>, seq<nat>)): Calls {
    (checked.0, L.StartCalls(k) + L.StopCalls(checked.1))
  }

  /** The first k places were started, none failed, and none was asked to stop. */
  predicate StartedBelow(cs: seq<L.Component>, c: Calls, running: set<nat>, answers: seq<L.Answer>, k: nat)
    requires |cs| == |answers|
  {
    k <= |cs| && NoneFailBelow(answers, k) && c == (L.AfterStarts(cs, answers, running, k), L.StartCalls(k))
  }

  /** Some start failed, the first one at place f, and the rollback has checked the places from k on. */
  predicate RolledBackTo(cs: seq<L.Component>, c: Calls, running: set<nat>, answers: seq<L.Answer>, k: nat)
    requires |cs| == |answers|
  {
    var f := L.FirstFailure(answers, 0);
    && f < |cs| && k <= |cs|
    && c == StartsThenStops(f + 1, CheckedDown(cs, answers, L.AfterStarts(cs, answers, running, f + 1), k))
  }

  /** The stop has checked the places from k on; `failed` is whether one of those asked failed. */
  predicate StoppedTo(cs: seq<L.Component>, c: Calls, toStop: set<nat>, answers: seq<L.Answer>, k: nat, failed: bool)
    requires |cs| == |answers|
  {
    && k <= |cs| && c == StartsThenStops(|cs|, CheckedDown(cs, answers, toStop, k))
    && (failed <==> !L.AllStopsSucceed(answers, CheckedDown(cs, answers, toStop, k).1))
  }

  predicate Refines(cs: seq<L.Component>, running: set<nat>, s: State, w: Answers) {
    && |w.start| == |w.stop| == |cs| == s.n
    && match s.runPc
       case NotRun => CallsIn(s) == (running, []) && Starting !in s.history
       case InitPhase => CallsIn(s) == (running, []) && Starting !in s.history
       case StartingAt(i) => StartedBelow(cs, CallsIn(s), running, w.start, i) && Starting in s.history
       case RollingBack(k) => RolledBackTo(cs, CallsIn(s), running, w.start, k) && Starting in s.history
       case StartFailed =>
         if Starting in s.history then RolledBackTo(cs, CallsIn(s), running, w.start, 0)
            else CallsIn(s) == (running, [])
       case Started => StartedBelow(cs, CallsIn(s), running, w.start, |cs|)
       case Listening => RefinesStop(cs, running, CallsIn(s), s.toStop, s.stopPc, w)
  }

  /** All places were started; what ran then is what the stop, once it has begun, checks. */
  predicate RefinesStop(cs: seq<L.Component>, running: set<nat>, c: Calls, toStop: set<nat>, pc: StopPc, w: Answers)
    requires |w.start| == |w.stop| == |cs|
  {
    match pc
    case Idle => StartedBelow(cs, c, running, w.start, |cs|)
    case StoppingAt(k, failed) =>
      StartedAll(cs, toStop, running, w.start) && StoppedTo(cs, c, toStop, w.stop, k, failed)
    case StopDone(failed) =>
      exists asked: bool :: failed == (asked || w.hookFails)
                            && StartedAll(cs, toStop, running, w.start) && StoppedTo(cs, c, toStop, w.stop, 0, asked)
  }

  predicate StartedAll(cs: seq<L.Component>, up: set<nat>, running: set<nat>, answers: seq<L.Answer>)
    requires |cs| == |answers|
  {
    NoneFailBelow(answers, |cs|) && up == L.AfterStarts(cs, answers, running, |cs|)
  }

  // ---- One more call ----

  lemma {:induction false} OneMoreStart(cs: seq<L.Component>, running: set<nat>, a: seq<L.Answer>, k: nat,
              answer: L.Answer)
    requires OwnObjects(cs) && k < |cs| == |a| && NoneFailBelow(a, k)
    ensures var b := Put(a, k, answer);
            && NoneFailBelow(b, k) && b[k] == answer
            && L.AfterStarts(cs, b, running, k + 1) ==
               L.SetRunning(L.AfterStarts(cs, a, running, k), k, answer.upAfterStart)
  {
    var b := Put(a, k, answer);
    assert a[..k] == b[..k];
    StartsAreLocal(cs, a, b, running, k);
    forall i | 0 <= i < k ensures !b[i].startFails {
      assert b[i] == a[i];
    }
  }

  /** A start that succeeds, or fails, continues the start as its answer says. */
  lemma {:induction false} StartsFurther(cs: seq<L.Component>, c: Calls, running: set<nat>, a: seq<L.Answer>, k: nat,
              answer: L.Answer)
    requires OwnObjects(cs) && k < |cs| == |a| && StartedBelow(cs, c, running, a, k)
    ensures var b, d := Put(a, k, answer), (L.SetRunning(c.0, k, answer.upAfterStart), c.1 + [L.StartCall(k)]);
            if answer.startFails then RolledBackTo(cs, d, running, b, |cs|) else StartedBelow(cs, d, running, b, k + 1)
  {
    var b := Put(a, k, answer);
    OneMoreStart(cs, running, a, k, answer);
    StartCallsSnoc(k);
    if answer.startFails {
      FirstFailureIs(b, k);
      assert L.StartCalls(k + 1) + L.StopCalls([]) == L.StartCalls(k + 1);
    } else {
      assert NoneFailBelow(b, k + 1);
    }
  }

  /** Place i is checked: if it runs it is asked to stop, and then runs or not as given. */
  function Check(c: (set<nat>, seq<nat>), i: nat, up: bool): (set<nat>, seq<nat>) {
    if i in c.0 then (L.SetRunning(c.0, i, up), c.1 + [i]) else c
  }

  function Ask(c: Calls, i: nat, up: bool): Calls {
    if i in c.0 then (L.SetRunning(c.0, i, up), c.1 + [L.StopCall(i)]) else c
  }

  lemma {:induction false} CheckAsks(k: nat, c: (set<nat>, seq<nat>), i: nat, up: bool)
    ensures StartsThenStops(k, Check(c, i, up)) == Ask(StartsThenStops(k, c), i, up)
  {
    StopCallsSnoc(c.1, i);
    assert L.StartCalls(k) + (L.StopCalls(c.1) + [L.StopCall(i)]) ==
           L.StartCalls(k) + L.StopCalls(c.1) + [L.StopCall(i)];
  }

  /** One more place checked, its component answering as given. */
  lemma {:induction false} OneMoreCheck(cs: seq<L.Component>, a: seq<L.Answer>, running: set<nat>, k: nat, fails: bool,
              up: bool)
    requires OwnObjects(cs) && 0 < k <= |cs| == |a|
    ensures SameStarts(a, WithStop(a, k - 1, fails, up))
    ensures var b := WithStop(a, k - 1, fails, up);
            var (now, places) := CheckedDown(cs, a, running, k);
            && CheckedDown(cs, b, running, k) == (now, places)
            && CheckedDown(cs, b, running, k - 1) == Check((now, places), k - 1, up)
            && (L.AllStopsSucceed(b, CheckedDown(cs, b, running, k - 1).1)
                <==> L.AllStopsSucceed(a, places) && !(k - 1 in now && fails))
  {
    var b := WithStop(a, k - 1, fails, up);
    assert a[k..] == b[k..];
    CheckedIsLocal(cs, a, b, running, k);
    var (now, places) := CheckedDown(cs, a, running, k);
    CheckedPlaces(cs, a, running, k);
    SucceedLocal(a, b, places, k);
    SucceedSnoc(b, places, k - 1);
  }

  lemma {:induction false} CheckedPlaces(cs: seq<L.Component>, a: seq<L.Answer>, running: set<nat>, k: nat)
    requires k <= |cs| == |a|
    ensures forall i :: 0 <= i < |CheckedDown(cs, a, running, k).1| ==> CheckedDown(cs, a, running, k).1[i] >= k
    decreases |cs| - k
  {
    if k < |cs| {
      CheckedPlaces(cs, a, running, k + 1);
    }
  }

  lemma {:induction false} SucceedLocal(a: seq<L.Answer>, b: seq<L.Answer>, places: seq<nat>, k: nat)
    requires L.Below(places, |a|) && |a| == |b| && k <= |a| && a[k..] == b[k..]
    requires forall i :: 0 <= i < |places| ==> places[i] >= k
    ensures L.AllStopsSucceed(a, places) <==> L.AllStopsSucceed(b, places)
  {
    forall i | 0 <= i < |places| ensures a[places[i]] == b[places[i]] {
      assert a[places[i]] == a[k..][places[i] - k] && b[places[i]] == b[k..][places[i] - k];
    }
  }

  lemma {:induction false} SucceedSnoc(a: seq<L.Answer>, places: seq<nat>, p: nat)
    requires L.Below(places, |a|) && p < |a|
    ensures L.Below(places + [p], |a|)
    ensures L.AllStopsSucceed(a, places + [p]) <==> L.AllStopsSucceed(a, places) && !a[p].stopFails
  {
    var more := places + [p];
    assert more[|places|] == p && forall i :: 0 <= i < |places| ==> more[i] == places[i];
  }

  lemma {:induction false} RollsBackFurther(cs: seq<L.Component>, c: Calls, running: set<nat>, a: seq<L.Answer>,
              k: nat, up: bool)
    requires OwnObjects(cs) && 0 < k && |a| == |cs| && RolledBackTo(cs, c, running, a, k)
    ensures RolledBackTo(cs, Ask(c, k - 1, up), running, WithStop(a, k - 1, false, up), k - 1)
  {
    var b, f := WithStop(a, k - 1, false, up), L.FirstFailure(a, 0);
    var started := L.AfterStarts(cs, a, running, f + 1);
    OneMoreCheck(cs, a, started, k, false, up);
    SameFirstFailure(a, b, 0);
    SameAfterStarts(cs, a, b, running, f + 1);
    CheckAsks(f + 1, CheckedDown(cs, a, started, k), k - 1, up);
  }

  lemma {:induction false} StopsFurther(cs: seq<L.Component>, c: Calls, toStop: set<nat>, a: seq<L.Answer>, k: nat,
              failed: bool, fails: bool, up: bool)
    requires OwnObjects(cs) && 0 < k && |a| == |cs| && StoppedTo(cs, c, toStop, a, k, failed)
    ensures StoppedTo(cs, Ask(c, k - 1, up), toStop, WithStop(a, k - 1, fails, up), k - 1,
                      failed || (k - 1 in c.0 && fails))
  {
    OneMoreCheck(cs, a, toStop, k, fails, up);
    CheckAsks(|cs|, CheckedDown(cs, a, toStop, k), k - 1, up);
  }

  // ---- What each step does to the calls ----

  lemma {:induction false} StartEffect(s: State, fails: bool, up: bool)
    requires s.runPc.StartingAt? && s.runPc.i < s.n
    ensures CallsIn(Next(s, if fails then StartFails(up) else StartComponent(up))) ==
            (L.SetRunning(s.running, s.runPc.i, up), CallsMade(s.log) + [L.StartCall(s.runPc.i)])
  {
    CallsSnoc(s.log, StartAsked(s.runPc.i));
  }

  lemma {:induction false} RollBackEffect(s: State, up: bool)
    requires s.runPc.RollingBack? && s.runPc.k > 0
    ensures CallsIn(Next(s, RollBack(up))) == Ask(CallsIn(s), s.runPc.k - 1, up)
  {
    CallsSnoc(s.log, StopAsked(s.runPc.k - 1, false));
  }

  lemma {:induction false} StopEffect(s: State, fails: bool, up: bool)
    requires s.stopPc.StoppingAt? && s.stopPc.k > 0
    ensures var t, k := Next(s, StopComponent(fails, up)), s.stopPc.k;
            && CallsIn(t) == Ask(CallsIn(s), k - 1, up)
            && t.stopPc == StoppingAt(k - 1, s.stopPc.failed || (k - 1 in s.running && fails))
            && t.n == s.n && t.runPc == s.runPc && t.toStop == s.toStop
  {
    CallsSnoc(s.log, StopAsked(s.stopPc.k - 1, fails));
  }

  lemma {:induction false} BeginStopRefines(cs: seq<L.Component>, running: set<nat>, c: Calls, w: Answers)
    requires |w.start| == |w.stop| == |cs| && RefinesStop(cs, running, c, {}, Idle, w)
    ensures RefinesStop(cs, running, c, c.0, StoppingAt(|cs|, false), w)
  {
    assert L.StartCalls(|cs|) + L.StopCalls([]) == L.StartCalls(|cs|);
  }

  lemma {:induction false} StartRefines(cs: seq<L.Component>, running: set<nat>, s: State, w: Answers, fails: bool,
              up: bool)
    requires OwnObjects(cs) && Refines(cs, running, s, w) && s.runPc.StartingAt? && s.runPc.i < s.n
    ensures var step := if fails then StartFails(up) else StartComponent(up);
            Refines(cs, running, Next(s, step), Answered(w, s, step))
  {
    StartEffect(s, fails, up);
    StartsFurther(cs, CallsIn(s), running, w.start, s.runPc.i, L.Answer(fails, up, false, false));
  }

  lemma {:induction false} RollBackRefines(cs: seq<L.Component>, running: set<nat>, s: State, w: Answers, up: bool)
    requires OwnObjects(cs) && Refines(cs, running, s, w) && s.runPc.RollingBack? && s.runPc.k > 0
    ensures Refines(cs, running, Next(s, RollBack(up)), Answered(w, s, RollBack(up)))
  {
    RollBackEffect(s, up);
    RollsBackFurther(cs, CallsIn(s), running, w.start, s.runPc.k, up);
  }

  lemma {:induction false} CheckRefinesStop(cs: seq<L.Component>, running: set<nat>, c: Calls, toStop: set<nat>,
              pc: StopPc, w: Answers, fails: bool, up: bool)
    requires OwnObjects(cs) && |w.start| == |w.stop| == |cs| && pc.StoppingAt? && pc.k > 0
    requires RefinesStop(cs, running, c, toStop, pc, w)
    ensures RefinesStop(cs, running, Ask(c, pc.k - 1, up), toStop,
                        StoppingAt(pc.k - 1, pc.failed || (pc.k - 1 in c.0 && fails)),
                        w.(stop := WithStop(w.stop, pc.k - 1, fails, up)))
  {
    StopsFurther(cs, c, toStop, w.stop, pc.k, pc.failed, fails, up);
  }

  lemma {:induction false} StopRefines(cs: seq<L.Component>, running: set<nat>, s: State, w: Answers, fails: bool,
              up: bool)
    requires OwnObjects(cs) && Refines(cs, running, s, w) && s.runPc == Listening && s.stopPc.StoppingAt?
             && s.stopPc.k > 0
    ensures Refines(cs, running, Next(s, StopComponent(fails, up)), Answered(w, s, StopComponent(fails, up)))
  {
    StopEffect(s, fails, up);
    CheckRefinesStop(cs, running, CallsIn(s), s.toStop, s.stopPc, w, fails, up);
  }

  lemma {:induction false} EndStopRefines(cs: seq<L.Component>, running: set<nat>, s: State, w: Answers,
              t: SM.ThreadId, fails: bool)
    requires OwnObjects(cs) && RunInv(s) && Enabled(s, EndStop(t, fails)) && Refines(cs, running, s, w)
    ensures Refines(cs, running, Next(s, EndStop(t, fails)), Answered(w, s, EndStop(t, fails)))
  {
    CallsSnoc(s.log, HookRan(NextHook(s.sd, t).value));
  }

  lemma {:induction false} ShutdownRefines(cs: seq<L.Component>, running: set<nat>, s: State, w: Answers, step: SM.Step)
    requires OwnObjects(cs) && RunInv(s) && Enabled(s, Shutdown(step)) && Refines(cs, running, s, w)
    ensures Refines(cs, running, Next(s, Shutdown(step)), w)
  {
    if step.RunHook? {
      CallsSnoc(s.log, HookRan(NextHook(s.sd, step.t).value));
    }
  }

  lemma {:induction false} StepRefines(cs: seq<L.Component>, running: set<nat>, s: State, w: Answers, step: Step)
    requires OwnObjects(cs) && RunInv(s) && Enabled(s, step) && Refines(cs, running, s, w)
    ensures Refines(cs, running, Next(s, step), Answered(w, s, step))
  {
    match step
    case StartComponent(up) => StartRefines(cs, running, s, w, false, up);
    case StartFails(up) => StartRefines(cs, running, s, w, true, up);
    case RollBack(up) => RollBackRefines(cs, running, s, w, up);
    case StopComponent(fails, up) => StopRefines(cs, running, s, w, fails, up);
    case Shutdown(sdStep) => ShutdownRefines(cs, running, s, w, sdStep);
    case BeginStop(_) => BeginStopRefines(cs, running, CallsIn(s), w);
    case EndStop(t, fails) => EndStopRefines(cs, running, s, w, t, fails);
    case InitSucceeds => assert L.StartCalls(0) == [];
    case _ =>
  }

  lemma {:induction false} StepsRefine(cs: seq<L.Component>, running: set<nat>, s: State, w: Answers, steps: seq<Step>)
    requires OwnObjects(cs) && RunInv(s) && Legal(s, steps) && Refines(cs, running, s, w)
    ensures Refines(cs, running, Exec(s, steps), AnswersFrom(w, s, steps))
    decreases |steps|
  {
    if steps != [] {
      NextKeepsRunInv(s, steps[0]);
      StepRefines(cs, running, s, w, steps[0]);
      StepsRefine(cs, running, Next(s, steps[0]), Answered(w, s, steps[0]), steps[1..]);
    }
  }

  /**
    Whatever is interleaved with it, Run is always at a point of LifecycleManager.Start, of its
    rollback or of LifecycleManager.Stop, the components answering as they do in the run.
  */
  lemma {:induction false} RunRefinesLifecycle(cs: seq<L.Component>, running: set<nat>, steps: seq<Step>)
    requires OwnObjects(cs) && Legal(Initial(|cs|, running), steps)
    ensures Refines(cs, running, Exec(Initial(|cs|, running), steps), AnswersOf(|cs|, running, steps))
  {
    StepsRefine(cs, running, Initial(|cs|, running), NoAnswers(|cs|), steps);
  }

  /**
    A start that failed has made the calls of LifecycleManager.Start, those up to the component
    that failed and those of the rollback, and left running what that leaves.
  */
  lemma {:induction false} FailedRunIsFailedStart(cs: seq<L.Component>, running: set<nat>, steps: seq<Step>)
    requires OwnObjects(cs) && Legal(Initial(|cs|, running), steps)
    requires var s := Exec(Initial(|cs|, running), steps); s.runPc == StartFailed && Starting in s.history
    ensures var s, answers := Exec(Initial(|cs|, running), steps), AnswersOf(|cs|, running, steps).start;
            var f := L.FirstFailure(answers, 0);
            && f < |cs|
            && var (after, places) := L.StopDown(cs, answers, L.AfterStarts(cs, answers, running, f + 1), |cs|);
               s.running == after && CallsMade(s.log) == L.StartCalls(f + 1) + L.StopCalls(places)
  {
    var answers := AnswersOf(|cs|, running, steps).start;
    RunRefinesLifecycle(cs, running, steps);
    CheckedAll(cs, answers, L.AfterStarts(cs, answers, running, L.FirstFailure(answers, 0) + 1));
  }

  /** The hooks of LifecycleManager.Stop that fail: some does exactly when `any` says so. */
  predicate SomeFails(hookFails: seq<bool>, any: bool) {
    any <==> exists i :: 0 <= i < |hookFails| && hookFails[i]
  }

  /**
    A stop that is over has made the calls of LifecycleManager.Stop after those of a start without
    failure, left running what it leaves, and the status is Stopped exactly when it returns no error.
  */
  lemma {:induction false} FinishedStopIsStop(cs: seq<L.Component>, running: set<nat>, steps: seq<Step>,
              hooks: seq<string>, hookFails: seq<bool>)
    requires OwnObjects(cs) && Legal(Initial(|cs|, running), steps)
    requires Exec(Initial(|cs|, running), steps).stopPc.StopDone?
    requires |hooks| == |hookFails| && SomeFails(hookFails, AnswersOf(|cs|, running, steps).hookFails)
    ensures var s, w := Exec(Initial(|cs|, running), steps), AnswersOf(|cs|, running, steps);
            var (after, places) := L.StopDown(cs, w.stop, s.toStop, |cs|);
            && L.FirstFailure(w.start, 0) == |cs| && s.toStop == L.AfterStarts(cs, w.start, running, |cs|)
            && s.running == after && CallsMade(s.log) == L.StartCalls(|cs|) + L.StopCalls(places)
            && (StatusNow(s) == Stopped <==> L.StopError(cs, w.stop, s.toStop, hooks, hookFails) == None)
  {
    var s, w := Exec(Initial(|cs|, running), steps), AnswersOf(|cs|, running, steps);
    RunRefinesLifecycle(cs, running, steps);
    InitialInv(|cs|, running);
    RunKeepsInv(Initial(|cs|, running), steps);
    FirstFailureIs(w.start, |cs|);
    CheckedAll(cs, w.stop, s.toStop);
    L.StopSucceedsIffAllDo(cs, w.stop, s.toStop, hooks, hookFails);
  }
}
