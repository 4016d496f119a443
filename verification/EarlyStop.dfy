/**
  A run of the application (bootstrap/application.go) in which a Stop wins before Run has
  registered its shutdown hook: the components are left running.
*/
module EarlyStop {
  import opened Application
  import opened Options
  import SM = ShutdownManager

  function Below(k: nat): (up: set<nat>)
    ensures forall i: nat :: i in up <==> i < k
  {
    if k == 0 then {} else Below(k - 1) + {k - 1}
  }

  predicate Reaches(n: nat, steps: seq<Step>, s: State) {
    Legal(Initial(n, {}), steps) && Exec(Initial(n, {}), steps) == s
  }

  lemma {:induction false} ReachNext(n: nat, steps: seq<Step>, s: State, step: Step)
    requires Reaches(n, steps, s) && Enabled(s, step)
    ensures Reaches(n, steps + [step], Next(s, step))
  {
    Extend(Initial(n, {}), steps, step);
  }

  /** Run up to the start of component k, every earlier one being up. */
  function StartsBelow(k: nat): seq<Step> {
    if k == 0 then [BeginRun] + [InitSucceeds] else StartsBelow(k - 1) + [StartComponent(true)]
  }

  function AsksBelow(k: nat): seq<Event> {
    if k == 0 then [] else AsksBelow(k - 1) + [StartAsked(k - 1)]
  }

  function StartedBelow(n: nat, k: nat): State {
    State(n, [Created, Initializing, Starting], StartingAt(k), Below(k), SM.INITIAL, None, Idle, {}, AsksBelow(k))
  }

  lemma {:induction false} ReachStarting(n: nat, k: nat)
    requires k <= n
    ensures Reaches(n, StartsBelow(k), StartedBelow(n, k))
  {
    if k == 0 {
      var s := Initial(n, {});
      ReachNext(n, [], s, BeginRun);
      ReachNext(n, [BeginRun], Next(s, BeginRun), InitSucceeds);
      assert [] + [BeginRun] == [BeginRun];
    } else {
      ReachStarting(n, k - 1);
      ReachNext(n, StartsBelow(k - 1), StartedBelow(n, k - 1), StartComponent(true));
    }
  }

  /** Running, with every component up, and the shutdown manager as given. */
  function Up(n: nat, sd: SM.State): State {
    State(n, [Created, Initializing, Starting, Running], Started, Below(n), sd, None, Idle, {}, AsksBelow(n))
  }

  /** A Stop in thread 1 has won the flag. */
  function Won(): SM.State {
    SM.State([], true, 0, Some(1), None, [], map[1 := SM.Won])
  }

  /** It has taken an empty snapshot and is about to run its hooks. */
  function Looping(): SM.State {
    SM.State([], true, 1, Some(1), Some([]), [], map[1 := SM.Running([], 0)])
  }

  lemma {:induction false} ReachWon(n: nat) returns (steps: seq<Step>)
    ensures Reaches(n, steps, Up(n, Won()))
  {
    ReachStarting(n, n);
    ReachNext(n, StartsBelow(n), StartedBelow(n, n), AllStarted);
    steps := StartsBelow(n) + [AllStarted];
    var s := Up(n, SM.INITIAL);
    ReachNext(n, steps, s, Shutdown(SM.Call(1)));
    steps, s := steps + [Shutdown(SM.Call(1))], Next(s, Shutdown(SM.Call(1)));
    ReachNext(n, steps, s, Shutdown(SM.Cas(1)));
    steps := steps + [Shutdown(SM.Cas(1))];
  }

  lemma {:induction false} ReachLooping(n: nat) returns (steps: seq<Step>)
    ensures Reaches(n, steps, Up(n, Looping()))
  {
    steps := ReachWon(n);
    var s := Up(n, Won());
    ReachNext(n, steps, s, Shutdown(SM.Close(1)));
    steps, s := steps + [Shutdown(SM.Close(1))], Next(s, Shutdown(SM.Close(1)));
    ReachNext(n, steps, s, Shutdown(SM.Snapshot(1, [])));
    steps := steps + [Shutdown(SM.Snapshot(1, []))];
  }

  /** Run and the Stop call have returned, the status is Running, and all components are up. */
  predicate LeftRunning(s: State) {
    && SM.At(s.sd, RUN_THREAD, SM.Returned) && SM.At(s.sd, 1, SM.Returned)
    && StatusNow(s) == Running && s.running == Below(s.n)
  }

  /**
    However many components there are: a Stop that wins between Running and the hook registration
    leaves them all running.
  */
  lemma {:induction false} EarlyStopLeavesComponentsRunning(n: nat) returns (steps: seq<Step>, s: State)
    ensures Reaches(n, steps, s) && LeftRunning(s)
  {
    steps := ReachLooping(n);
    s := Up(n, Looping());
    ReachNext(n, steps, s, Shutdown(SM.Finish(1)));
    steps, s := steps + [Shutdown(SM.Finish(1))], Next(s, Shutdown(SM.Finish(1)));
    ReachNext(n, steps, s, RegisterHook);
    steps, s := steps + [RegisterHook], Next(s, RegisterHook);
    ReachNext(n, steps, s, Shutdown(SM.Release(RUN_THREAD)));
    steps, s := steps + [Shutdown(SM.Release(RUN_THREAD))], Next(s, Shutdown(SM.Release(RUN_THREAD)));
  }
}
