/**
  The lifecycle manager (bootstrap/lifecycle.go): start with rollback, and stop in
  reverse order. Components are unknown code: every call gets its answer from a
  parameter, so the contracts hold however components behave.
*/
module Lifecycle {
  import opened Options

  type Id = nat

  /** A registration; one component object (`id`) may be registered under several names. */
  datatype Component = Component(name: string, id: Id)

  /** What the component registered at some place answers in this run, and whether it then reports running. */
  datatype Answer = Answer(startFails: bool, upAfterStart: bool, stopFails: bool, upAfterStop: bool)

  datatype Error = AlreadyStarted | StartFailed(name: string) | StopFailed(name: string) | HookFailed(name: string)

  datatype Event = StartCall(place: nat) | StopCall(place: nat) | HookCall(place: nat)

  function SetRunning(running: set<Id>, id: Id, up: bool): set<Id> {
    if up then running + {id} else running - {id}
  }

  /** Who runs after the first k places were started. */
  function AfterStarts(cs: seq<Component>, answers: seq<Answer>, running: set<Id>, k: nat): set<Id>
    requires k <= |cs| == |answers|
  {
    if k == 0 then running
    else SetRunning(AfterStarts(cs, answers, running, k - 1), cs[k - 1].id, answers[k - 1].upAfterStart)
  }

  /** The first place at or after k whose start fails, or the number of places. */
  function FirstFailure(answers: seq<Answer>, k: nat): (f: nat)
    requires k <= |answers|
    ensures k <= f <= |answers|
    ensures f < |answers| ==> answers[f].startFails
    ensures forall i :: k <= i < f ==> !answers[i].startFails
    decreases |answers| - k
  {
    if k == |answers| || answers[k].startFails then k else FirstFailure(answers, k + 1)
  }

  predicate Below(places: seq<nat>, n: nat) {
    forall i :: 0 <= i < |places| ==> places[i] < n
  }

  /** The places asked to stop when places k-1 down to 0 are checked in turn, and who runs afterwards. */
  function StopDown(cs: seq<Component>, answers: seq<Answer>, running: set<Id>, k: nat): (r: (set<Id>, seq<nat>))
    requires k <= |cs| == |answers|
    ensures Below(r.1, k)
  {
    if k == 0 then (running, [])
    else if cs[k - 1].id !in running then StopDown(cs, answers, running, k - 1)
    else
      var (after, places) := StopDown(cs, answers, SetRunning(running, cs[k - 1].id, answers[k - 1].upAfterStop),
            k - 1);
      (after, [k - 1] + places)
  }

  function StartCalls(k: nat): seq<Event> {
    seq(k, i requires 0 <= i < k => StartCall(i))
  }

  function StopCalls(places: seq<nat>): seq<Event> {
    seq(|places|, i requires 0 <= i < |places| => StopCall(places[i]))
  }

  /** Calls to the shutdown hooks at places k-1 down to 0. */
  function HookCallsDown(k: nat): seq<Event> {
    if k == 0 then [] else [HookCall(k - 1)] + HookCallsDown(k - 1)
  }

  /** The error of the first place in the list whose stop failed. */
  function FirstStopError(cs: seq<Component>, answers: seq<Answer>, places: seq<nat>): Option<Error>
    requires |cs| == |answers| && Below(places, |cs|)
  {
    if places == [] then None
    else if answers[places[0]].stopFails then Some(StopFailed(cs[places[0]].name))
    else FirstStopError(cs, answers, places[1..])
  }

  function FirstHookError(hooks: seq<string>, hookFails: seq<bool>, k: nat): Option<Error>
    requires k <= |hooks| == |hookFails|
  {
    if k == 0 then None
    else if hookFails[k - 1] then Some(HookFailed(hooks[k - 1]))
    else FirstHookError(hooks, hookFails, k - 1)
  }

  /** Later places come first, and only running components are listed. */
  predicate LastFirst(cs: seq<Component>, running: set<Id>, places: seq<nat>) {
    && Below(places, |cs|)
    && (forall i, j :: 0 <= i < j < |places| ==> places[i] > places[j])
    && (forall i :: 0 <= i < |places| ==> cs[places[i]].id in running)
  }

  lemma {:induction false} StopDownPlaces(cs: seq<Component>, answers: seq<Answer>, running: set<Id>, k: nat)
    requires k <= |cs| == |answers|
    ensures LastFirst(cs, running, StopDown(cs, answers, running, k).1)
  {
    if k > 0 {
      if cs[k - 1].id in running {
        var next := SetRunning(running, cs[k - 1].id, answers[k - 1].upAfterStop);
        var rest := StopDown(cs, answers, next, k - 1).1;
        StopDownPlaces(cs, answers, next, k - 1);
        assert LastFirst(cs, running, [k - 1] + rest);
      } else {
        StopDownPlaces(cs, answers, running, k - 1);
      }
    }
  }

  /** Some listed place belongs to the component. */
  ghost predicate Asked(cs: seq<Component>, places: seq<nat>, id: Id)
    requires Below(places, |cs|)
  {
    exists i :: 0 <= i < |places| && cs[places[i]].id == id
  }

  /** Every component that runs is asked to stop. */
  lemma {:induction false} StopDownAsksAll(cs: seq<Component>, answers: seq<Answer>, running: set<Id>, k: nat, i: nat)
    requires i < k <= |cs| == |answers| && cs[i].id in running
    ensures Asked(cs, StopDown(cs, answers, running, k).1, cs[i].id)
  {
    var places := StopDown(cs, answers, running, k).1;
    if cs[k - 1].id == cs[i].id {
      assert cs[places[0]].id == cs[i].id;
    } else {
      var next := if cs[k - 1].id in running then SetRunning(running, cs[k - 1].id, answers[k - 1].upAfterStop)
          else running;
      StopDownAsksAll(cs, answers, next, k - 1, i);
      var rest := StopDown(cs, answers, next, k - 1).1;
      var p :| 0 <= p < |rest| && cs[rest[p]].id == cs[i].id;
      assert places == rest || places[p + 1] == rest[p];
    }
  }

  /** The component's stop, at each place from i up to k where it is registered, leaves it running. */
  predicate StaysUp(cs: seq<Component>, answers: seq<Answer>, id: Id, i: nat, k: nat)
    requires k <= |cs| == |answers|
  {
    forall j :: i <= j < k && cs[j].id == id ==> answers[j].upAfterStop
  }

  /**
    A place is asked to stop exactly when its component ran and the stops at its later places left it
    running; and a component is left running exactly when it ran and all its stops leave it running.
  */
  lemma {:induction false} StopDownIs(cs: seq<Component>, answers: seq<Answer>, running: set<Id>, k: nat, i: nat,
              id: Id)
    requires k <= |cs| == |answers|
    ensures var (after, places) := StopDown(cs, answers, running, k);
            && (id in after <==> id in running && StaysUp(cs, answers, id, 0, k))
            && (i in places <==> i < k && cs[i].id in running && StaysUp(cs, answers, cs[i].id, i + 1, k))
  {
    if k > 0 {
      var next := if cs[k - 1].id in running then SetRunning(running, cs[k - 1].id, answers[k - 1].upAfterStop)
          else running;
      StopDownIs(cs, answers, next, k - 1, i, id);
    }
  }

  /** A component whose stop always clears its flag is not left running; others not registered below k are untouched. */
  lemma {:induction false} StopDownClears(cs: seq<Component>, answers: seq<Answer>, running: set<Id>, k: nat, id: Id)
    requires k <= |cs| == |answers|
    requires forall i :: 0 <= i < k && cs[i].id == id ==> !answers[i].upAfterStop
    ensures id in StopDown(cs, answers, running, k).0 <==> id in running && forall i :: 0 <= i < k ==> cs[i].id != id
  {
    StopDownIs(cs, answers, running, k, 0, id);
  }

  /** Who runs after some starts: whoever its last start left running, or ran before and was not started. */
  lemma {:induction false} AfterStartsIs(cs: seq<Component>, answers: seq<Answer>, running: set<Id>, k: nat, id: Id)
    requires k <= |cs| == |answers|
    ensures forall i :: 0 <= i < k && cs[i].id == id && (forall j :: i < j < k ==> cs[j].id != id) ==>
              (id in AfterStarts(cs, answers, running, k) <==> answers[i].upAfterStart)
    ensures (forall i :: 0 <= i < k ==> cs[i].id != id) ==>
              (id in AfterStarts(cs, answers, running, k) <==> id in running)
  {
    if k > 0 {
      AfterStartsIs(cs, answers, running, k - 1, id);
    }
  }

  /** Starts are called in registration order, stops in the order of the places asked. */
  lemma {:induction false} CallsAre(k: nat, places: seq<nat>, i: nat)
    ensures |StartCalls(k)| == k && (i < k ==> StartCalls(k)[i] == StartCall(i))
    ensures |StopCalls(places)| == |places| && (i < |places| ==> StopCalls(places)[i] == StopCall(places[i]))
  {
  }

  /** The shutdown hooks are called last first. */
  lemma {:induction false} HookCallsDownIs(k: nat, i: nat)
    requires i < k
    ensures |HookCallsDown(k)| == k && HookCallsDown(k)[i] == HookCall(k - 1 - i)
  {
    if i > 0 {
      HookCallsDownIs(k - 1, i - 1);
    } else if k > 1 {
      HookCallsDownIs(k - 1, 0);
    }
  }

  /**
    A failed start: components were started in registration order up to the failing one, every
    one then running was asked to stop, later places first, and a component whose stop clears
    its flag is not left running.
  */
  lemma {:induction false} FailedStartLeavesNoneRunning(cs: seq<Component>, answers: seq<Answer>, running: set<Id>,
              j: nat)
    requires |cs| == |answers| && FirstFailure(answers, 0) < |cs| && j < |cs|
    ensures var up := AfterStarts(cs, answers, running, FirstFailure(answers, 0) + 1);
            var (after, places) := StopDown(cs, answers, up, |cs|);
            && LastFirst(cs, up, places)
            && (cs[j].id in up ==> Asked(cs, places, cs[j].id))
            && ((forall i :: 0 <= i < |cs| && cs[i].id == cs[j].id ==> !answers[i].upAfterStop) ==> cs[j].id !in after)
  {
    var up := AfterStarts(cs, answers, running, FirstFailure(answers, 0) + 1);
    StopDownPlaces(cs, answers, up, |cs|);
    if cs[j].id in up {
      StopDownAsksAll(cs, answers, up, |cs|, j);
    }
    if forall i :: 0 <= i < |cs| && cs[i].id == cs[j].id ==> !answers[i].upAfterStop {
      StopDownClears(cs, answers, up, |cs|, cs[j].id);
    }
  }

  predicate AllStopsSucceed(answers: seq<Answer>, places: seq<nat>)
    requires Below(places, |answers|)
  {
    forall i :: 0 <= i < |places| ==> !answers[places[i]].stopFails
  }

  lemma {:induction false} NoStopErrorIff(cs: seq<Component>, answers: seq<Answer>, places: seq<nat>)
    requires |cs| == |answers| && Below(places, |cs|)
    ensures match FirstStopError(cs, answers, places)
            case None => AllStopsSucceed(answers, places)
            case Some(e) =>
              exists k :: 0 <= k < |places| && answers[places[k]].stopFails && e == StopFailed(cs[places[k]].name)
                                        && forall i :: 0 <= i < k ==> !answers[places[i]].stopFails
  {
    if places != [] && !answers[places[0]].stopFails {
      var rest := places[1..];
      NoStopErrorIff(cs, answers, rest);
      if FirstStopError(cs, answers, rest).Some? {
        var k :| 0 <= k < |rest| && answers[rest[k]].stopFails
                 && FirstStopError(cs, answers, rest) == Some(StopFailed(cs[rest[k]].name))
                 && forall i :: 0 <= i < k ==> !answers[rest[i]].stopFails;
        assert places[k + 1] == rest[k];
        forall i | 0 <= i < k + 1 ensures !answers[places[i]].stopFails {
          assert i > 0 ==> places[i] == rest[i - 1];
        }
      }
    }
  }

  lemma {:induction false} NoHookErrorIff(hooks: seq<string>, hookFails: seq<bool>, k: nat)
    requires k <= |hooks| == |hookFails|
    ensures match FirstHookError(hooks, hookFails, k)
            case None => forall i :: 0 <= i < k ==> !hookFails[i]
            case Some(e) => exists i :: 0 <= i < k && hookFails[i] && e == HookFailed(hooks[i])
                                        && forall j :: i < j < k ==> !hookFails[j]
  {
    if k > 0 && !hookFails[k - 1] {
      NoHookErrorIff(hooks, hookFails, k - 1);
    }
  }

  function StopError(cs: seq<Component>, answers: seq<Answer>, running: set<Id>, hooks: seq<string>,
              hookFails: seq<bool>): Option<Error>
    requires |cs| == |answers| && |hooks| == |hookFails|
  {
    var e := FirstStopError(cs, answers, StopDown(cs, answers, running, |cs|).1);
    if e.Some? then e else FirstHookError(hooks, hookFails, |hooks|)
  }

  /** Stop returns nil exactly when every component asked to stop and every hook succeeded. */
  lemma {:induction false} StopSucceedsIffAllDo(cs: seq<Component>, answers: seq<Answer>, running: set<Id>,
              hooks: seq<string>, hookFails: seq<bool>)
    requires |cs| == |answers| && |hooks| == |hookFails|
    ensures StopError(cs, answers, running, hooks, hookFails) == None <==>
            AllStopsSucceed(answers, StopDown(cs, answers, running, |cs|).1)
            && forall i :: 0 <= i < |hooks| ==> !hookFails[i]
  {
    var places := StopDown(cs, answers, running, |cs|).1;
    NoStopErrorIff(cs, answers, places);
    NoHookErrorIff(hooks, hookFails, |hooks|);
    match FirstStopError(cs, answers, places)
    case Some(_) =>
    case None =>
      match FirstHookError(hooks, hookFails, |hooks|)
      case Some(_) =>
      case None =>
  }

  /**
    The error of Stop: that of the first component asked whose stop failed, and only when there is none
    that of the last hook that failed.
  */
  lemma {:induction false} StopErrorIs(cs: seq<Component>, answers: seq<Answer>, running: set<Id>,
              hooks: seq<string>, hookFails: seq<bool>, i: nat)
    requires |cs| == |answers| && |hooks| == |hookFails|
    ensures var places, e := StopDown(cs, answers, running, |cs|).1, StopError(cs, answers, running, hooks, hookFails);
            && (i < |places| && answers[places[i]].stopFails && AllStopsSucceed(answers, places[..i]) ==>
                  e == Some(StopFailed(cs[places[i]].name)))
            && (AllStopsSucceed(answers, places) && i < |hooks| && hookFails[i]
                && (forall j :: i < j < |hooks| ==> !hookFails[j]) ==>
                  e == Some(HookFailed(hooks[i])))
  {
    var places := StopDown(cs, answers, running, |cs|).1;
    NoStopErrorIff(cs, answers, places);
    NoHookErrorIff(hooks, hookFails, |hooks|);
    if i < |places| && answers[places[i]].stopFails && AllStopsSucceed(answers, places[..i]) {
      FirstStopIs(cs, answers, places, i);
    }
  }

  lemma {:induction false} FirstStopIs(cs: seq<Component>, answers: seq<Answer>, places: seq<nat>, i: nat)
    requires |cs| == |answers| && Below(places, |cs|)
    requires i < |places| && answers[places[i]].stopFails && AllStopsSucceed(answers, places[..i])
    ensures FirstStopError(cs, answers, places) == Some(StopFailed(cs[places[i]].name))
  {
    if i > 0 {
      assert places[..i][0] == places[0] && places[1..][..i - 1] == places[..i][1..];
      FirstStopIs(cs, answers, places[1..], i - 1);
    }
  }

  class LifecycleManager {
    var lifecycles: seq<Component>
    var initHooks: seq<string>
    var shutdownHooks: seq<string>
    var started: bool
    /** The world: which components report running, and the calls made to them. */
    var running: set<Id>
    var calls: seq<Event>

    constructor ()
      ensures lifecycles == [] && initHooks == [] && shutdownHooks == [] && !started && calls == []
    {
      lifecycles, initHooks, shutdownHooks, started, running, calls := [], [], [], false, {}, [];
    }

    method AddLifecycle(c: Component)
      modifies this`lifecycles
      ensures lifecycles == old(lifecycles) + [c]
    {
      lifecycles := lifecycles + [c];
    }

    /** Runs the init hooks in order and stops at the first that fails; `ran` counts those called. */
    method Init(hookFails: seq<bool>) returns (err: Option<Error>, ran: nat)
      requires |hookFails| == |initHooks|
      ensures ran <= |initHooks| && forall i :: 0 <= i < ran - 1 ==> !hookFails[i]
      ensures err == None ==> ran == |initHooks| && forall i :: 0 <= i < ran ==> !hookFails[i]
      ensures err.Some? ==> ran > 0 && hookFails[ran - 1] && err.value == HookFailed(initHooks[ran - 1])
    {
      ran := 0;
      for i := 0 to |initHooks|
        invariant ran == i && forall k :: 0 <= k < i ==> !hookFails[k]
      {
        ran := ran + 1;
        if hookFails[i] {
          return Some(HookFailed(initHooks[i])), ran;
        }
      }
      err := None;
    }

    method Start(answers: seq<Answer>) returns (err: Option<Error>)
      requires |answers| == |lifecycles|
      modifies this`started, this`running, this`calls
      ensures old(started) ==> err == Some(AlreadyStarted) && started && running == old(running) && calls == old(calls)
      ensures !old(started) ==>
                var f := FirstFailure(answers, 0);
                if f == |lifecycles| then
                  && err == None && started && calls == old(calls) + StartCalls(f)
                  && running == AfterStarts(lifecycles, answers, old(running), f)
                else
                  var up := AfterStarts(lifecycles, answers, old(running), f + 1);
                  var (after, places) := StopDown(lifecycles, answers, up, |lifecycles|);
                  && err == Some(StartFailed(lifecycles[f].name)) && !started
                  && running == after && calls == old(calls) + StartCalls(f + 1) + StopCalls(places)
    {
      if started {
        return Some(AlreadyStarted);
      }
      for k := 0 to |lifecycles|
        invariant !started && k <= FirstFailure(answers, 0)
        invariant running == AfterStarts(lifecycles, answers, old(running), k)
        invariant calls == old(calls) + StartCalls(k)
      {
        assert StartCalls(k + 1) == StartCalls(k) + [StartCall(k)];
        calls := calls + [StartCall(k)];
        running := SetRunning(running, lifecycles[k].id, answers[k].upAfterStart);
        if answers[k].startFails {
          var _ := StopRunning(answers);
          return Some(StartFailed(lifecycles[k].name));
        }
      }
      started := true;
      err := None;
    }

    /** Asks every running component to stop, last place first; keeps the first error. */
    method StopRunning(answers: seq<Answer>) returns (firstErr: Option<Error>)
      requires |answers| == |lifecycles|
      modifies this`running, this`calls
      ensures var (after, places) := StopDown(lifecycles, answers, old(running), |lifecycles|);
              && running == after && calls == old(calls) + StopCalls(places)
              && firstErr == FirstStopError(lifecycles, answers, places)
    {
      firstErr := None;
      ghost var places: seq<nat> := [];
      var i := |lifecycles|;
      assert [] + StopDown(lifecycles, answers, running, i).1 == StopDown(lifecycles, answers, running, i).1;
      while i > 0
        invariant 0 <= i <= |lifecycles|
        invariant Below(places, |lifecycles|) && calls == old(calls) + StopCalls(places)
        invariant StopDown(lifecycles, answers, old(running), |lifecycles|) ==
                  (StopDown(lifecycles, answers, running, i).0, places + StopDown(lifecycles, answers, running, i).1)
        invariant firstErr == FirstStopError(lifecycles, answers, places)
      {
        i := i - 1;
        if lifecycles[i].id in running {
          ghost var rest := StopDown(lifecycles, answers,
                      SetRunning(running, lifecycles[i].id, answers[i].upAfterStop), i).1;
          assert places + ([i] + rest) == places + [i] + rest;
          assert StopCalls(places + [i]) == StopCalls(places) + [StopCall(i)];
          FirstStopErrorSnoc(lifecycles, answers, places, i);
          calls := calls + [StopCall(i)];
          running := SetRunning(running, lifecycles[i].id, answers[i].upAfterStop);
          if answers[i].stopFails && firstErr.None? {
            firstErr := Some(StopFailed(lifecycles[i].name));
          }
          places := places + [i];
        }
      }
      assert places + [] == places;
    }

    method Stop(answers: seq<Answer>, hookFails: seq<bool>) returns (firstErr: Option<Error>)
      requires |answers| == |lifecycles| && |hookFails| == |shutdownHooks|
      modifies this`started, this`running, this`calls
      ensures !started
      ensures var (after, places) := StopDown(lifecycles, answers, old(running), |lifecycles|);
              running == after && calls == old(calls) + StopCalls(places) + HookCallsDown(|shutdownHooks|)
      ensures firstErr == StopError(lifecycles, answers, old(running), shutdownHooks, hookFails)
    {
      started := false;
      firstErr := StopRunning(answers);
      ghost var before, compErr := calls, firstErr;
      var i := |shutdownHooks|;
      while i > 0
        invariant 0 <= i <= |shutdownHooks| && !started
        invariant running == StopDown(lifecycles, answers, old(running), |lifecycles|).0
        invariant before + HookCallsDown(|shutdownHooks|) == calls + HookCallsDown(i)
        invariant (if compErr.Some? then compErr else FirstHookError(shutdownHooks, hookFails, |shutdownHooks|)) ==
                  (if firstErr.Some? then firstErr else FirstHookError(shutdownHooks, hookFails, i))
      {
        i := i - 1;
        assert calls + ([HookCall(i)] + HookCallsDown(i)) == calls + [HookCall(i)] + HookCallsDown(i);
        calls := calls + [HookCall(i)];
        if hookFails[i] && firstErr.None? {
          firstErr := Some(HookFailed(shutdownHooks[i]));
        }
      }
    }
  }

  lemma {:induction false} FirstStopErrorSnoc(cs: seq<Component>, answers: seq<Answer>, places: seq<nat>, p: nat)
    requires |cs| == |answers| && p < |cs| && Below(places, |cs|)
    ensures FirstStopError(cs, answers, places + [p]) ==
            var e := FirstStopError(cs, answers, places);
            if e.Some? then e else if answers[p].stopFails then Some(StopFailed(cs[p].name)) else None
  {
    if places != [] {
      assert (places + [p])[1..] == places[1..] + [p];
      FirstStopErrorSnoc(cs, answers, places[1..], p);
    }
  }
}
