/**
  What a script of bus calls does (common/signals.go), said of the calls it makes: each is made, in
  order, and after each emit the invoked handlers make theirs before the script goes on.
*/
module SignalScripts {
  import opened Signals
  import Q = Seqs

  /** A script as the list of what it asks for: an operation, or an emit with what the handlers will do. */
  datatype Item = Call(op: Op) | Raise(event: string, reactions: seq<Script>)

  function Items(s: Script): seq<Item> {
    match s
    case Done => []
    case Connect(e, h, next) => [Call(Connected(e, h))] + Items(next)
    case Disconnect(e, id, next) => [Call(Disconnected(e, id))] + Items(next)
    case Clear(es, next) => [Call(Cleared(es))] + Items(next)
    case Emit(e, reactions, next) => [Raise(e, Scripts(reactions))] + Items(next)
  }

  function Scripts(r: Reactions): seq<Script> {
    match r
    case Idle => []
    case React(first, others) => [first] + Scripts(others)
  }

  function Take<T>(ts: seq<T>, n: nat): seq<T> {
    if n <= |ts| then ts[..n] else ts
  }

  /** What several handlers do, one after the other. */
  function LogOfAll(b: Bus, ss: seq<Script>): seq<Happening> {
    if ss == [] then []
    else
      var before := LogOfAll(b, ss[..|ss| - 1]);
      before + ScriptLog(After(b, before), ss[|ss| - 1])
  }

  /** An operation happens. An emit invokes the handlers connected now, and as many scripts are run. */
  function LogOfItem(b: Bus, item: Item): seq<Happening> {
    match item
    case Call(op) => [Did(op)]
    case Raise(e, ss) => [Emitted(e, Get(b, e))] + LogOfAll(b, Take(ss, |Get(b, e)|))
  }

  function LogOfItems(b: Bus, items: seq<Item>): seq<Happening> {
    if items == [] then []
    else
      var before := LogOfItems(b, items[..|items| - 1]);
      before + LogOfItem(After(b, before), items[|items| - 1])
  }

  // ---- Taking lists from the front ----

  lemma {:induction false} LogOfAllCons(b: Bus, s: Script, ss: seq<Script>)
    ensures LogOfAll(b, [s] + ss) == ScriptLog(b, s) + LogOfAll(After(b, ScriptLog(b, s)), ss)
  {
    var all, first := [s] + ss, ScriptLog(b, s);
    NothingDone(b, first);
    if ss == [] {
      assert all[..0] == [] && all[0] == s;
      NothingDone(b, first);
    } else {
      var front, last := ss[..|ss| - 1], ss[|ss| - 1];
      assert all[..|all| - 1] == [s] + front;
      LogOfAllCons(b, s, front);
      var rest := LogOfAll(After(b, first), front);
      AfterAppend(b, first, rest);
      Q.Associates(first, rest, ScriptLog(After(After(b, first), rest), last));
    }
  }

  lemma {:induction false} LogOfItemsCons(b: Bus, item: Item, items: seq<Item>)
    ensures LogOfItems(b, [item] + items) == LogOfItem(b, item) + LogOfItems(After(b, LogOfItem(b, item)), items)
  {
    var all, first := [item] + items, LogOfItem(b, item);
    NothingDone(b, first);
    if items == [] {
      assert all[..0] == [] && all[0] == item;
    } else {
      var front, last := items[..|items| - 1], items[|items| - 1];
      assert all[..|all| - 1] == [item] + front;
      LogOfItemsCons(b, item, front);
      var rest := LogOfItems(After(b, first), front);
      AfterAppend(b, first, rest);
      Q.Associates(first, rest, LogOfItem(After(After(b, first), rest), last));
    }
  }

  lemma {:induction false} TakeCons<T>(t: T, ts: seq<T>, n: nat)
    requires n > 0
    ensures Take([t] + ts, n) == [t] + Take(ts, n - 1)
  {
  }

  lemma {:induction false} ReactionLogCons(b: Bus, n: nat, first: Script, others: Reactions)
    requires n > 0
    ensures ReactionLog(b, n, React(first, others)) ==
            ScriptLog(b, first) + ReactionLog(After(b, ScriptLog(b, first)), n - 1, others)
  {
  }

  lemma {:induction false} TakeNone<T>(ts: seq<T>)
    ensures Take(ts, 0) == []
  {
  }

  /** As many reactions are run as handlers were invoked, in order. */
  lemma {:induction false} ReactionsRunInOrder(b: Bus, n: nat, r: Reactions)
    ensures ReactionLog(b, n, r) == LogOfAll(b, Take(Scripts(r), n))
    decreases r
  {
    if n == 0 {
      TakeNone(Scripts(r));
    } else {
      match r
      case Idle =>
      case React(first, others) =>
        var after := After(b, ScriptLog(b, first));
        ReactionsRunInOrder(after, n - 1, others);
        ReactionLogCons(b, n, first, others);
        TakeCons(first, Scripts(others), n);
        LogOfAllCons(b, first, Take(Scripts(others), n - 1));
    }
  }

  /** A script does what its items say, all of them, in order. */
  lemma {:induction false} ScriptDoesItsItems(b: Bus, s: Script)
    ensures ScriptLog(b, s) == LogOfItems(b, Items(s))
    decreases s, 0
  {
    match s
    case Done =>
    case Connect(e, h, next) => CallThenRest(b, Connected(e, h), next);
    case Disconnect(e, id, next) => CallThenRest(b, Disconnected(e, id), next);
    case Clear(es, next) => CallThenRest(b, Cleared(es), next);
    case Emit(e, reactions, next) =>
      var raised := Raise(e, Scripts(reactions));
      ReactionsRunInOrder(b, |Get(b, e)|, reactions);
      ScriptDoesItsItems(After(b, LogOfItem(b, raised)), next);
      LogOfItemsCons(b, raised, Items(next));
  }

  lemma {:induction false} CallThenRest(b: Bus, op: Op, next: Script)
    ensures [Did(op)] + ScriptLog(Apply(b, op), next) == LogOfItems(b, [Call(op)] + Items(next))
    decreases next, 1
  {
    AfterOne(b, Did(op));
    ScriptDoesItsItems(Apply(b, op), next);
    LogOfItemsCons(b, Call(op), Items(next));
  }

  // ---- Handlers that make no calls ----

  predicate Quiet(items: seq<Item>) {
    forall i :: 0 <= i < |items| && items[i].Raise? ==> items[i].reactions == []
  }

  function CallsAmong(items: seq<Item>): seq<Op> {
    if items == [] then []
    else
      match items[|items| - 1]
      case Call(op) => CallsAmong(items[..|items| - 1]) + [op]
      case Raise(_, _) => CallsAmong(items[..|items| - 1])
  }

  lemma {:induction false} QuietItems(b: Bus, items: seq<Item>)
    requires Quiet(items)
    ensures |LogOfItems(b, items)| == |items| && OpsIn(LogOfItems(b, items)) == CallsAmong(items)
  {
    if items != [] {
      var front, last := items[..|items| - 1], items[|items| - 1];
      var before := LogOfItems(b, front);
      QuietItems(b, front);
      var h := match last case Call(op) => Did(op) case Raise(e, _) => Emitted(e, Get(After(b, before), e));
      assert last.Raise? ==> Take(last.reactions, |Get(After(b, before), last.event)|) == [];
      assert LogOfItem(After(b, before), last) == [h];
      OpsInSnoc(before, h);
    }
  }

  lemma {:induction false} QuietPrefix(b: Bus, items: seq<Item>, k: nat)
    requires Quiet(items) && k <= |items|
    ensures Quiet(items[..k]) && |LogOfItems(b, items)| == |items|
    ensures LogOfItems(b, items)[..k] == LogOfItems(b, items[..k])
    decreases |items|
  {
    QuietItems(b, items);
    if k == |items| {
      assert items[..k] == items;
    } else {
      var front, last := items[..|items| - 1], items[|items| - 1];
      var before := LogOfItems(b, front);
      QuietPrefix(b, front, k);
      assert front[..k] == items[..k];
      PrefixOfMore(before, LogOfItem(After(b, before), last), k);
    }
  }

  lemma {:induction false} PrefixOfMore<T>(a: seq<T>, b: seq<T>, k: nat)
    requires k <= |a|
    ensures (a + b)[..k] == a[..k]
  {
  }

  lemma {:induction false} QuietItemAt(b: Bus, items: seq<Item>, k: nat)
    requires Quiet(items) && k < |items|
    ensures |LogOfItems(b, items)| == |items|
    ensures LogOfItems(b, items)[k] ==
            match items[k]
            case Call(op) => Did(op)
            case Raise(e, _) => Emitted(e, Get(ApplyAll(b, CallsAmong(items[..k])), e))
  {
    var upTo, item := items[..k + 1], items[k];
    QuietPrefix(b, items, k);
    QuietPrefix(b, items, k + 1);
    QuietItems(b, items[..k]);
    var before := LogOfItems(b, items[..k]);
    assert upTo[..k] == items[..k] && upTo[k] == item;
    assert LogOfItems(b, upTo) == before + LogOfItem(After(b, before), item);
    assert LogOfItems(b, items)[k] == LogOfItems(b, items)[..k + 1][k] == LogOfItem(After(b, before), item)[0];
  }

  /**
    When the handlers make no calls, a script's k-th item happens k-th: its operations are made
    just as it lists them, and on an empty bus each emit invokes the handlers still connected
    after the calls that the script made before it.
  */
  lemma {:induction false} QuietScriptHappens(s: Script, k: nat)
    requires Quiet(Items(s)) && k < |Items(s)| && Connects(CallsAmong(Items(s)[..k])) < WIDTH
    ensures OpsIn(ScriptLog(EMPTY, s)) == CallsAmong(Items(s))
    ensures |ScriptLog(EMPTY, s)| == |Items(s)|
    ensures ScriptLog(EMPTY, s)[k] ==
            match Items(s)[k]
            case Call(op) => Did(op)
            case Raise(e, _) => Emitted(e, StillConnected(CallsAmong(Items(s)[..k]), e))
  {
    ScriptDoesItsItems(EMPTY, s);
    QuietItems(EMPTY, Items(s));
    QuietItemAt(EMPTY, Items(s), k);
    match Items(s)[k]
    case Call(_) =>
    case Raise(e, _) => SlicesAreStillConnected(CallsAmong(Items(s)[..k]), e);
  }

  /** A handler that is disconnected before an emit is not invoked by it. */
  lemma {:induction false} DisconnectedIsNotInvoked(event: string, handler: nat)
    ensures ScriptLog(EMPTY, Connect(event, handler, Disconnect(event, 1, Emit(event, Idle, Done)))) ==
            [Did(Connected(event, handler)), Did(Disconnected(event, 1)), Emitted(event, [])]
  {
    var connected := Apply(EMPTY, Connected(event, handler));
    var one := [SigHandler(1, handler)];
    assert [] + one == one;
    assert Get(connected, event) == one && one[0].id == 1 && HasID(one, 1);
    var gone := Apply(connected, Disconnected(event, 1));
    assert Get(gone, event) == [];
    assert ScriptLog(gone, Emit(event, Idle, Done)) == [Emitted(event, [])] + [] + [];
  }
}
