/**
  The signal bus (common/signals.go): copy-on-write handler slices, so that an Emit can
  call handlers that connect, disconnect, clear and emit again. Slices are arrays here:
  that no published slice changes is a statement about the heap.
*/
module Signals {
  import Q = Seqs

  datatype SigHandler = SigHandler(id: nat, handler: nat)

  /** uint is 64 bits wide. */
  const WIDTH: nat := 0x1_0000_0000_0000_0000

  // ---- The bus as a value ----

  datatype Bus = Bus(lastID: nat, slices: map<string, seq<SigHandler>>)

  const EMPTY := Bus(0, map[])

  datatype Op =
    | Connected(event: string, handler: nat)
    | Disconnected(event: string, id: nat)
    | Cleared(events: seq<string>)

  function Get(b: Bus, event: string): seq<SigHandler> {
    if event in b.slices then b.slices[event] else []
  }

  function NextID(id: nat): (r: nat)
    ensures id + 1 < WIDTH ==> r == id + 1
  {
    (id + 1) % WIDTH
  }

  function WithoutFirst(s: seq<SigHandler>, id: nat): seq<SigHandler> {
    if s == [] then [] else if s[0].id == id then s[1..] else [s[0]] + WithoutFirst(s[1..], id)
  }

  predicate HasID(s: seq<SigHandler>, id: nat) {
    exists i :: 0 <= i < |s| && s[i].id == id
  }

  function Drop(slices: map<string, seq<SigHandler>>, events: seq<string>): map<string, seq<SigHandler>> {
    map e | e in slices && e !in events :: slices[e]
  }

  function Apply(b: Bus, op: Op): Bus {
    match op
    case Connected(e, h) =>
      Bus(NextID(b.lastID), b.slices[e := Get(b, e) + [SigHandler(NextID(b.lastID), h)]])
    case Disconnected(e, id) =>
      if !HasID(Get(b, e), id) then b
      else if |Get(b, e)| == 1 then b.(slices := b.slices - {e})
      else b.(slices := b.slices[e := WithoutFirst(b.slices[e], id)])
    case Cleared(es) => b.(slices := Drop(b.slices, es))
  }

  function ApplyAll(b: Bus, ops: seq<Op>): Bus {
    if ops == [] then b else Apply(ApplyAll(b, ops[..|ops| - 1]), ops[|ops| - 1])
  }

  lemma {:induction false} ApplyAllAppend(b: Bus, p: seq<Op>, q: seq<Op>)
    ensures ApplyAll(b, p + q) == ApplyAll(ApplyAll(b, p), q)
  {
    if q == [] {
      assert p + q == p;
    } else {
      assert (p + q)[..|p + q| - 1] == p + q[..|q| - 1];
      ApplyAllAppend(b, p, q[..|q| - 1]);
    }
  }

  // ---- Who is connected, by the history alone ----

  function Connects(ops: seq<Op>): nat {
    if ops == [] then 0 else Connects(ops[..|ops| - 1]) + if ops[|ops| - 1].Connected? then 1 else 0
  }

  predicate Removes(op: Op, event: string, id: nat) {
    (op.Disconnected? && op.event == event && op.id == id) || (op.Cleared? && event in op.events)
  }

  /** Connection k to the event got number n and no later operation removed it. */
  predicate Survives(ops: seq<Op>, event: string, k: nat) {
    && k < |ops| && ops[k].Connected? && ops[k].event == event
    && forall j :: k < j < |ops| ==> !Removes(ops[j], event, Connects(ops[..k + 1]))
  }

  function SurvivorsBelow(ops: seq<Op>, event: string, k: nat): seq<SigHandler>
    requires k <= |ops|
  {
    if k == 0 then []
    else SurvivorsBelow(ops, event, k - 1)
         + if Survives(ops, event, k - 1) then [SigHandler(Connects(ops[..k]), ops[k - 1].handler)] else []
  }

  /**
    The handlers still connected to an event, in connection order: the n-th connection of the
    bus has id n, and counts unless it was disconnected or its event cleared afterwards.
  */
  function StillConnected(ops: seq<Op>, event: string): seq<SigHandler> {
    SurvivorsBelow(ops, event, |ops|)
  }

  /** The handlers an operation leaves connected. */
  function Kept(s: seq<SigHandler>, op: Op, event: string): seq<SigHandler> {
    if s == [] then [] else (if Removes(op, event, s[0].id) then [] else [s[0]]) + Kept(s[1..], op, event)
  }

  lemma {:induction false} KeptSnoc(s: seq<SigHandler>, x: SigHandler, op: Op, event: string)
    ensures Kept(s + [x], op, event) == Kept(s, op, event) + if Removes(op, event, x.id) then [] else [x]
  {
    var all, last := s + [x], if Removes(op, event, x.id) then [] else [x];
    if s == [] {
      assert all == [x] && [x][1..] == [];
      assert last + [] == last && [] + last == last;
    } else {
      var first := if Removes(op, event, s[0].id) then [] else [s[0]];
      assert all[0] == s[0] && all[1..] == s[1..] + [x];
      KeptSnoc(s[1..], x, op, event);
      assert first + (Kept(s[1..], op, event) + last) == (first + Kept(s[1..], op, event)) + last;
    }
  }

  lemma {:induction false} SurvivorsAfter(ops: seq<Op>, op: Op, event: string, k: nat)
    requires k <= |ops|
    ensures SurvivorsBelow(ops + [op], event, k) == Kept(SurvivorsBelow(ops, event, k), op, event)
  {
    if k > 0 {
      var all := ops + [op];
      var x := SigHandler(Connects(ops[..k]), if ops[k - 1].Connected? then ops[k - 1].handler else 0);
      SurvivorsAfter(ops, op, event, k - 1);
      assert all[..k] == ops[..k] && all[k - 1] == ops[k - 1] && all[|ops|] == op;
      assert forall j :: k - 1 < j < |ops| ==> all[j] == ops[j];
      assert Survives(all, event, k - 1) <==> Survives(ops, event, k - 1) && !Removes(op, event, x.id);
      var before := SurvivorsBelow(ops, event, k - 1);
      if Survives(ops, event, k - 1) {
        KeptSnoc(before, x, op, event);
      } else {
        assert before + [] == before;
        assert Kept(before, op, event) + [] == Kept(before, op, event);
      }
    }
  }

  lemma {:induction false} StillConnectedSnoc(ops: seq<Op>, op: Op, event: string)
    ensures StillConnected(ops + [op], event) ==
            Kept(StillConnected(ops, event), op, event)
            + if op.Connected? && op.event == event then [SigHandler(Connects(ops + [op]), op.handler)] else []
  {
    var all := ops + [op];
    SurvivorsAfter(ops, op, event, |ops|);
    assert all[..|all|] == all && all[|ops|] == op;
  }

  predicate Increasing(s: seq<SigHandler>) {
    forall i, j :: 0 <= i < j < |s| ==> s[i].id < s[j].id
  }

  predicate IdsUpTo(s: seq<SigHandler>, n: nat) {
    forall i :: 0 <= i < |s| ==> 0 < s[i].id <= n
  }

  lemma {:induction false} KeptAll(s: seq<SigHandler>, op: Op, event: string)
    requires forall i :: 0 <= i < |s| ==> !Removes(op, event, s[i].id)
    ensures Kept(s, op, event) == s
  {
    if s != [] {
      KeptAll(s[1..], op, event);
    }
  }

  lemma {:induction false} KeptNone(s: seq<SigHandler>, op: Op, event: string)
    requires forall i :: 0 <= i < |s| ==> Removes(op, event, s[i].id)
    ensures Kept(s, op, event) == []
  {
    if s != [] {
      KeptNone(s[1..], op, event);
    }
  }

  lemma {:induction false} KeptIsWithoutFirst(s: seq<SigHandler>, event: string, id: nat)
    requires Increasing(s)
    ensures Kept(s, Disconnected(event, id), event) == WithoutFirst(s, id)
  {
    if s != [] {
      if s[0].id == id {
        KeptAll(s[1..], Disconnected(event, id), event);
      } else {
        KeptIsWithoutFirst(s[1..], event, id);
      }
    }
  }

  lemma {:induction false} WithoutAbsent(s: seq<SigHandler>, id: nat)
    requires !HasID(s, id)
    ensures WithoutFirst(s, id) == s
  {
    if s != [] {
      assert s[0].id != id;
      forall i | 0 <= i < |s[1..]| ensures s[1..][i].id != id {
        assert s[1..][i] == s[i + 1];
      }
      WithoutAbsent(s[1..], id);
    }
  }

  lemma {:induction false} WithoutFirstKeeps(s: seq<SigHandler>, id: nat, n: nat)
    requires Increasing(s) && IdsUpTo(s, n)
    ensures Increasing(WithoutFirst(s, id)) && IdsUpTo(WithoutFirst(s, id), n)
    ensures s != [] ==> forall i :: 0 <= i < |WithoutFirst(s, id)| ==> WithoutFirst(s, id)[i].id >= s[0].id
  {
    if s != [] && s[0].id != id {
      WithoutFirstKeeps(s[1..], id, n);
    }
  }

  /** What one event's slice must be after some operations, as long as ids have not wrapped. */
  predicate SliceOk(s: seq<SigHandler>, ops: seq<Op>, event: string) {
    s == StillConnected(ops, event) && Increasing(s) && IdsUpTo(s, Connects(ops))
  }

  lemma {:induction false} NewestIdIsLargest(s: seq<SigHandler>, x: SigHandler, n: nat)
    requires Increasing(s) && IdsUpTo(s, n) && x.id == n + 1
    ensures Increasing(s + [x]) && IdsUpTo(s + [x], n + 1) && IdsUpTo(s, n + 1)
  {
  }

  lemma {:induction false} ConnectKeepsSlice(b: Bus, ops: seq<Op>, e: string, h: nat, event: string)
    requires SliceOk(Get(b, event), ops, event) && b.lastID == Connects(ops) && Connects(ops) + 1 < WIDTH
    ensures SliceOk(Get(Apply(b, Connected(e, h)), event), ops + [Connected(e, h)], event)
  {
    var s, op, n := Get(b, event), Connected(e, h), Connects(ops);
    var x := SigHandler(n + 1, h);
    assert Connects(ops + [op]) == n + 1 by {
      assert (ops + [op])[..|ops|] == ops;
    }
    assert Get(Apply(b, op), event) == if e == event then s + [x] else s;
    StillConnectedSnoc(ops, op, event);
    KeptAll(s, op, event);
    assert s + [] == s;
    NewestIdIsLargest(s, x, n);
  }

  lemma {:induction false} DisconnectKeepsSlice(b: Bus, ops: seq<Op>, e: string, id: nat, event: string)
    requires SliceOk(Get(b, event), ops, event)
    ensures SliceOk(Get(Apply(b, Disconnected(e, id)), event), ops + [Disconnected(e, id)], event)
  {
    var s, op := Get(b, event), Disconnected(e, id);
    assert (ops + [op])[..|ops|] == ops;
    StillConnectedSnoc(ops, op, event);
    assert Kept(s, op, event) + [] == Kept(s, op, event);
    if e == event {
      KeptIsWithoutFirst(s, event, id);
      WithoutFirstKeeps(s, id, Connects(ops));
      if !HasID(s, id) {
        WithoutAbsent(s, id);
      } else if |s| == 1 {
        assert s[0].id == id;
      }
      assert Get(Apply(b, op), event) == WithoutFirst(s, id);
    } else {
      KeptAll(s, op, event);
    }
  }

  lemma {:induction false} ClearKeepsSlice(b: Bus, ops: seq<Op>, es: seq<string>, event: string)
    requires SliceOk(Get(b, event), ops, event)
    ensures SliceOk(Get(Apply(b, Cleared(es)), event), ops + [Cleared(es)], event)
  {
    var s, op := Get(b, event), Cleared(es);
    assert (ops + [op])[..|ops|] == ops;
    StillConnectedSnoc(ops, op, event);
    assert Kept(s, op, event) + [] == Kept(s, op, event);
    if event in es {
      KeptNone(s, op, event);
    } else {
      KeptAll(s, op, event);
    }
  }

  /**
    After any operations, up to 2^64 - 1 connections, every event's slice holds exactly the
    handlers still connected to it, in connection order, with strictly increasing ids.
  */
  lemma {:induction false} SlicesAreStillConnected(ops: seq<Op>, event: string)
    requires Connects(ops) < WIDTH
    ensures SliceOk(Get(ApplyAll(EMPTY, ops), event), ops, event)
    ensures ApplyAll(EMPTY, ops).lastID == Connects(ops)
  {
    if ops != [] {
      var front, op := ops[..|ops| - 1], ops[|ops| - 1];
      SlicesAreStillConnected(front, event);
      assert ops == front + [op];
      var b := ApplyAll(EMPTY, front);
      match op
      case Connected(e, h) => ConnectKeepsSlice(b, front, e, h, event);
      case Disconnected(e, id) => DisconnectKeepsSlice(b, front, e, id, event);
      case Cleared(es) => ClearKeepsSlice(b, front, es, event);
    }
  }

  predicate NoEmptySlice(b: Bus) {
    forall e :: e in b.slices ==> b.slices[e] != []
  }

  lemma {:induction false} WithoutFirstLength(s: seq<SigHandler>, id: nat)
    ensures |WithoutFirst(s, id)| >= |s| - 1
  {
    if s != [] {
      WithoutFirstLength(s[1..], id);
    }
  }

  /** No event maps to an empty slice, wrap or not. */
  lemma {:induction false} NoSliceIsEmpty(b: Bus, ops: seq<Op>)
    requires NoEmptySlice(b)
    ensures NoEmptySlice(ApplyAll(b, ops))
  {
    if ops != [] {
      var b', op := ApplyAll(b, ops[..|ops| - 1]), ops[|ops| - 1];
      NoSliceIsEmpty(b, ops[..|ops| - 1]);
      if op.Disconnected? {
        WithoutFirstLength(Get(b', op.event), op.id);
      }
    }
  }

  /** The last id counts the connections, modulo 2^64. */
  lemma {:induction false} LastIDCountsConnects(ops: seq<Op>)
    ensures ApplyAll(EMPTY, ops).lastID == Connects(ops) % WIDTH
  {
    if ops != [] {
      LastIDCountsConnects(ops[..|ops| - 1]);
    }
  }

  /** The id that the connection at position i is given. */
  function GivenID(ops: seq<Op>, i: nat): nat
    requires i < |ops|
  {
    Apply(ApplyAll(EMPTY, ops[..i]), ops[i]).lastID
  }

  lemma {:induction false} GivenIDIs(ops: seq<Op>, i: nat)
    requires i < |ops|
    ensures GivenID(ops, i) == Connects(ops[..i + 1]) % WIDTH
  {
    LastIDCountsConnects(ops[..i + 1]);
    assert ops[..i + 1][..i] == ops[..i];
  }

  lemma {:induction false} LaterConnects(ops: seq<Op>, i: nat, j: nat)
    requires i < j <= |ops|
    ensures Connects(ops[..i]) + (if ops[j - 1].Connected? then 1 else 0) <= Connects(ops[..j])
    decreases j
  {
    assert ops[..j][..j - 1] == ops[..j - 1];
    if i < j - 1 {
      LaterConnects(ops, i, j - 1);
    }
  }

  lemma {:induction false} NthConnect(ops: seq<Op>, n: nat) returns (i: nat)
    requires 0 < n <= Connects(ops)
    ensures i < |ops| && ops[i].Connected? && Connects(ops[..i + 1]) == n
  {
    var front := ops[..|ops| - 1];
    if n <= Connects(front) {
      i := NthConnect(front, n);
      assert front[..i + 1] == ops[..i + 1];
    } else {
      i := |ops| - 1;
      assert ops[..i + 1] == ops;
    }
  }

  /** No two connections of the run are given the same id. */
  predicate IdsAreUnique(ops: seq<Op>) {
    forall i, j :: 0 <= i < j < |ops| && ops[i].Connected? && ops[j].Connected? ==> GivenID(ops, i) != GivenID(ops, j)
  }

  lemma {:induction false} ConnectsBetween(ops: seq<Op>, i: nat, j: nat)
    requires i < j < |ops| && ops[i].Connected? && ops[j].Connected?
    ensures 0 < Connects(ops[..i + 1]) < Connects(ops[..j + 1]) <= Connects(ops)
  {
    LaterConnects(ops, i, i + 1);
    LaterConnects(ops, i + 1, j + 1);
    assert ops[..|ops|] == ops;
    if j + 1 < |ops| {
      LaterConnects(ops, j + 1, |ops|);
    }
  }

  lemma {:induction false} NoWrapNoRepeat(a: nat, b: nat)
    requires 0 < a < b <= WIDTH
    ensures a % WIDTH != b % WIDTH
  {
    assert a % WIDTH == a;
    assert b % WIDTH == if b == WIDTH then 0 else b;
  }

  lemma {:induction false} IdsDiffer(ops: seq<Op>, i: nat, j: nat)
    requires Connects(ops) <= WIDTH && i < j < |ops| && ops[i].Connected? && ops[j].Connected?
    ensures GivenID(ops, i) != GivenID(ops, j)
  {
    ConnectsBetween(ops, i, j);
    GivenIDIs(ops, i);
    GivenIDIs(ops, j);
    NoWrapNoRepeat(Connects(ops[..i + 1]), Connects(ops[..j + 1]));
  }

  /** The first connection and the one made 2^64 connections later are given the same id. */
  lemma {:induction false} WrapRepeats(ops: seq<Op>) returns (i: nat, j: nat)
    requires Connects(ops) > WIDTH
    ensures i < j < |ops| && ops[i].Connected? && ops[j].Connected? && GivenID(ops, i) == GivenID(ops, j)
  {
    i := NthConnect(ops, 1);
    j := NthConnect(ops, 1 + WIDTH);
    if j < i {
      LaterConnects(ops, j + 1, i + 1);
    }
    SameIDModWidth(ops, i, j);
  }

  lemma {:induction false} SameIDModWidth(ops: seq<Op>, i: nat, j: nat)
    requires i < |ops| && j < |ops| && Connects(ops[..j + 1]) == Connects(ops[..i + 1]) + WIDTH
    ensures GivenID(ops, i) == GivenID(ops, j)
  {
    GivenIDIs(ops, i);
    GivenIDIs(ops, j);
    OneWidthMore(Connects(ops[..i + 1]));
  }

  lemma {:induction false} OneWidthMore(n: nat)
    ensures (n + WIDTH) % WIDTH == n % WIDTH
  {
    assert n + WIDTH == WIDTH * (n / WIDTH + 1) + n % WIDTH;
  }

  /** In any run of the bus an id is given twice exactly when more than 2^64 connections are made. */
  lemma {:induction false} IdsAreUniqueIffNoWrap(ops: seq<Op>)
    ensures IdsAreUnique(ops) <==> Connects(ops) <= WIDTH
  {
    if Connects(ops) <= WIDTH {
      forall i, j | 0 <= i < j < |ops| && ops[i].Connected? && ops[j].Connected?
        ensures GivenID(ops, i) != GivenID(ops, j) {
        IdsDiffer(ops, i, j);
      }
    } else {
      var i, j := WrapRepeats(ops);
    }
  }

  // ---- Handlers that call back ----

  /** What a handler does when called: a finite list of bus calls; an Emit carries what its own handlers do. */
  datatype Script =
    | Done
    | Connect(event: string, handler: nat, next: Script)
    | Disconnect(event: string, id: nat, next: Script)
    | Clear(events: seq<string>, next: Script)
    | Emit(event: string, reactions: Reactions, next: Script)

  datatype Reactions = Idle | React(first: Script, others: Reactions)

  /** What happens on the bus, in order: an operation, or an emit that snapshots the handlers it will invoke. */
  datatype Happening = Did(op: Op) | Emitted(event: string, invoked: seq<SigHandler>)

  function OpsIn(log: seq<Happening>): seq<Op> {
    if log == [] then []
    else if log[|log| - 1].Did? then OpsIn(log[..|log| - 1]) + [log[|log| - 1].op]
    else OpsIn(log[..|log| - 1])
  }

  /** The bus after everything in the log. */
  function After(b: Bus, log: seq<Happening>): Bus {
    ApplyAll(b, OpsIn(log))
  }

  /**
    What a script does to a bus. An emit invokes the handlers connected at that moment; what the
    first of them does comes next, then what the second does, and so on, and then the rest of the script.
  */
  function ScriptLog(b: Bus, s: Script): seq<Happening>
    decreases s
  {
    match s
    case Done => []
    case Connect(e, h, next) => [Did(Connected(e, h))] + ScriptLog(Apply(b, Connected(e, h)), next)
    case Disconnect(e, id, next) => [Did(Disconnected(e, id))] + ScriptLog(Apply(b, Disconnected(e, id)), next)
    case Clear(es, next) => [Did(Cleared(es))] + ScriptLog(Apply(b, Cleared(es)), next)
    case Emit(e, reactions, next) =>
      var done := [Emitted(e, Get(b, e))] + ReactionLog(b, |Get(b, e)|, reactions);
      done + ScriptLog(After(b, done), next)
  }

  /** What n invoked handlers do, one after the other; a handler without a reaction does nothing. */
  function ReactionLog(b: Bus, n: nat, r: Reactions): seq<Happening>
    decreases r
  {
    if n == 0 || r.Idle? then []
    else
      var done := ScriptLog(b, r.first);
      done + ReactionLog(After(b, done), n - 1, r.others)
  }

  lemma {:induction false} OpsInSnoc(log: seq<Happening>, h: Happening)
    ensures OpsIn(log + [h]) == if h.Did? then OpsIn(log) + [h.op] else OpsIn(log)
  {
    assert (log + [h])[..|log|] == log;
  }

  lemma {:induction false} AfterSnoc(b: Bus, log: seq<Happening>, h: Happening)
    ensures After(b, log + [h]) == if h.Did? then Apply(After(b, log), h.op) else After(b, log)
  {
    OpsInSnoc(log, h);
    if h.Did? {
      assert (OpsIn(log) + [h.op])[..|OpsIn(log)|] == OpsIn(log);
    }
  }

  lemma {:induction false} AfterAppend(b: Bus, p: seq<Happening>, q: seq<Happening>)
    ensures After(b, p + q) == After(After(b, p), q)
  {
    if q == [] {
      assert p + q == p;
    } else {
      var front, h := q[..|q| - 1], q[|q| - 1];
      AfterAppend(b, p, front);
      assert q == front + [h] && p + q == (p + front) + [h];
      AfterSnoc(b, p + front, h);
      AfterSnoc(After(b, p), front, h);
    }
  }

  lemma {:induction false} AfterOne(b: Bus, h: Happening)
    ensures After(b, [h]) == if h.Did? then Apply(b, h.op) else b
  {
    AfterSnoc(b, [], h);
    assert [] + [h] == [h];
  }

  // ---- Every emit of a run ----

  /** Every emit in the log invoked the handlers the bus had at that moment. */
  predicate EmitsSeeTheBus(b: Bus, log: seq<Happening>) {
    forall k :: 0 <= k < |log| && log[k].Emitted? ==> log[k].invoked == Get(After(b, log[..k]), log[k].event)
  }

  lemma {:induction false} EmitsSeeAppend(b: Bus, p: seq<Happening>, q: seq<Happening>)
    requires EmitsSeeTheBus(b, p) && EmitsSeeTheBus(After(b, p), q)
    ensures EmitsSeeTheBus(b, p + q)
  {
    var log := p + q;
    forall k | 0 <= k < |log| && log[k].Emitted? ensures log[k].invoked == Get(After(b, log[..k]), log[k].event) {
      if k < |p| {
        assert log[..k] == p[..k] && log[k] == p[k];
      } else {
        assert log[..k] == p + q[..k - |p|] && log[k] == q[k - |p|];
        AfterAppend(b, p, q[..k - |p|]);
      }
    }
  }

  lemma {:induction false} EmitSeesOne(b: Bus, h: Happening)
    requires h.Emitted? ==> h.invoked == Get(b, h.event)
    ensures EmitsSeeTheBus(b, [h])
  {
    assert [h][..0] == [];
  }

  lemma {:induction false} ScriptEmitsSee(b: Bus, s: Script)
    ensures EmitsSeeTheBus(b, ScriptLog(b, s))
    decreases s, 0
  {
    match s
    case Done =>
    case Connect(e, h, next) => OpEmitsSee(b, Connected(e, h), next);
    case Disconnect(e, id, next) => OpEmitsSee(b, Disconnected(e, id), next);
    case Clear(es, next) => OpEmitsSee(b, Cleared(es), next);
    case Emit(e, reactions, next) =>
      var taken, inner := Emitted(e, Get(b, e)), ReactionLog(b, |Get(b, e)|, reactions);
      EmitSeesOne(b, taken);
      AfterOne(b, taken);
      ReactionEmitsSee(b, |Get(b, e)|, reactions);
      EmitsSeeAppend(b, [taken], inner);
      ScriptEmitsSee(After(b, [taken] + inner), next);
      EmitsSeeAppend(b, [taken] + inner, ScriptLog(After(b, [taken] + inner), next));
  }

  lemma {:induction false} OpEmitsSee(b: Bus, op: Op, next: Script)
    ensures EmitsSeeTheBus(b, [Did(op)] + ScriptLog(Apply(b, op), next))
    decreases next, 1
  {
    EmitSeesOne(b, Did(op));
    AfterOne(b, Did(op));
    ScriptEmitsSee(Apply(b, op), next);
    EmitsSeeAppend(b, [Did(op)], ScriptLog(Apply(b, op), next));
  }

  lemma {:induction false} ReactionEmitsSee(b: Bus, n: nat, r: Reactions)
    ensures EmitsSeeTheBus(b, ReactionLog(b, n, r))
    decreases r, 0
  {
    if n > 0 && r.React? {
      var done := ScriptLog(b, r.first);
      ScriptEmitsSee(b, r.first);
      ReactionEmitsSee(After(b, done), n - 1, r.others);
      EmitsSeeAppend(b, done, ReactionLog(After(b, done), n - 1, r.others));
    }
  }

  /**
    In every run from an empty bus, whatever the handlers do when called: each emit, nested ones
    included, invokes exactly the handlers connected and not removed by then, in connection order.
  */
  lemma {:induction false} EmitsInvokeStillConnected(s: Script, k: nat)
    requires k < |ScriptLog(EMPTY, s)| && ScriptLog(EMPTY, s)[k].Emitted?
    requires Connects(OpsIn(ScriptLog(EMPTY, s)[..k])) < WIDTH
    ensures var log := ScriptLog(EMPTY, s); log[k].invoked == StillConnected(OpsIn(log[..k]), log[k].event)
  {
    var log := ScriptLog(EMPTY, s);
    ScriptEmitsSee(EMPTY, s);
    SlicesAreStillConnected(OpsIn(log[..k]), log[k].event);
  }

  // ---- Doing it step by step ----

  /** From `start` the log was made, and with the n handlers left it becomes the whole. */
  predicate ReactionsLeft(start: Bus, log: seq<Happening>, now: Bus, n: nat, rest: Reactions, whole: seq<Happening>) {
    now == After(start, log) && log + ReactionLog(now, n, rest) == whole
  }

  lemma {:induction false} ReactionDone(start: Bus, log: seq<Happening>, now: Bus, n: nat, rest: Reactions,
              whole: seq<Happening>)
    requires ReactionsLeft(start, log, now, n, rest, whole) && n > 0
    ensures rest.Idle? ==> ReactionsLeft(start, log, now, n - 1, rest, whole)
    ensures rest.React? ==>
              var done := ScriptLog(now, rest.first);
              ReactionsLeft(start, log + done, After(now, done), n - 1, rest.others, whole)
  {
    if rest.React? {
      var done := ScriptLog(now, rest.first);
      AfterAppend(start, log, done);
      Q.Associates(log, done, ReactionLog(After(now, done), n - 1, rest.others));
    }
  }

  /** The same for the rest of a script. */
  predicate ScriptLeft(start: Bus, log: seq<Happening>, now: Bus, rest: Script, whole: seq<Happening>) {
    now == After(start, log) && log + ScriptLog(now, rest) == whole
  }

  lemma {:induction false} ScriptDone(start: Bus, log: seq<Happening>, now: Bus, rest: Script, next: Script,
              done: seq<Happening>, whole: seq<Happening>)
    requires ScriptLeft(start, log, now, rest, whole)
             && ScriptLog(now, rest) == done + ScriptLog(After(now, done), next)
    ensures ScriptLeft(start, log + done, After(now, done), next, whole)
  {
    AfterAppend(start, log, done);
    Q.Associates(log, done, ScriptLog(After(now, done), next));
  }

  lemma {:induction false} NothingDone(b: Bus, log: seq<Happening>)
    ensures After(b, []) == b && [] + log == log && log + [] == log
  {
  }

  lemma {:induction false} BeginReactions(b: Bus, n: nat, r: Reactions)
    ensures ReactionsLeft(b, [], b, n, r, ReactionLog(b, n, r))
  {
    NothingDone(b, ReactionLog(b, n, r));
  }

  lemma {:induction false} EndReactions(start: Bus, log: seq<Happening>, now: Bus, rest: Reactions,
              whole: seq<Happening>)
    requires ReactionsLeft(start, log, now, 0, rest, whole)
    ensures log == whole && now == After(start, log)
  {
    NothingDone(start, log);
  }

  // ---- The bus in memory ----

  function Size(s: Script): nat {
    match s
    case Done => 0
    case Connect(_, _, next) => 1 + Size(next)
    case Disconnect(_, _, next) => 1 + Size(next)
    case Clear(_, next) => 1 + Size(next)
    case Emit(_, reactions, next) => 1 + ReactionsSize(reactions) + Size(next)
  }

  function ReactionsSize(r: Reactions): nat {
    match r
    case Idle => 0
    case React(first, others) => 1 + Size(first) + ReactionsSize(others)
  }

  lemma {:induction false} WithoutFirstCuts(s: seq<SigHandler>, i: nat)
    requires i < |s| && forall k :: 0 <= k < i ==> s[k].id != s[i].id
    ensures WithoutFirst(s, s[i].id) == s[..i] + s[i + 1..]
  {
    if i > 0 {
      WithoutFirstCuts(s[1..], i - 1);
      assert s[..i] == [s[0]] + s[1..][..i - 1];
      assert s[1..][i..] == s[i + 1..];
    }
  }

  class Signals {
    var lastID: nat
    var sigHandlers: map<string, array<SigHandler>>

    constructor ()
      ensures View() == EMPTY
    {
      lastID, sigHandlers := 0, map[];
    }

    ghost function View(): Bus
      reads this, sigHandlers.Values
    {
      Bus(lastID, map e | e in sigHandlers :: sigHandlers[e][..])
    }

    /** A fresh slice with the given handlers. */
    method Publish(handlers: seq<SigHandler>) returns (slice: array<SigHandler>)
      ensures fresh(slice) && slice[..] == handlers
    {
      slice := new SigHandler[|handlers|](i requires 0 <= i < |handlers| => handlers[i]);
    }

    method ConnectHandler(event: string, handler: nat) returns (id: nat)
      modifies this
      ensures View() == Apply(old(View()), Connected(event, handler)) && id == View().lastID == NextID(old(lastID))
      ensures SlicesFrozen(old(sigHandlers))
    {
      lastID := NextID(lastID);
      id := lastID;
      var cur := if event in sigHandlers then sigHandlers[event][..] else [];
      var next := Publish(cur + [SigHandler(id, handler)]);
      sigHandlers := sigHandlers[event := next];
    }

    method DisconnectHandler(event: string, id: nat)
      modifies this
      ensures View() == Apply(old(View()), Disconnected(event, id))
      ensures SlicesFrozen(old(sigHandlers))
    {
      if event !in sigHandlers {
        return;
      }
      var cur := sigHandlers[event];
      for i := 0 to cur.Length
        invariant sigHandlers == old(sigHandlers) && lastID == old(lastID) && cur == sigHandlers[event]
        invariant forall k :: 0 <= k < i ==> cur[k].id != id
      {
        if cur[i].id != id {
          continue;
        }
        assert HasID(cur[..], id) by {
          assert cur[..][i].id == id;
        }
        if cur.Length == 1 {
          sigHandlers := sigHandlers - {event};
          return;
        }
        WithoutFirstCuts(cur[..], i);
        var next := Publish(cur[..i] + cur[i + 1..]);
        assert next[..] == WithoutFirst(cur[..], id);
        sigHandlers := sigHandlers[event := next];
        return;
      }
    }

    method ClearEvents(events: seq<string>)
      modifies this
      ensures View() == Apply(old(View()), Cleared(events))
      ensures SlicesFrozen(old(sigHandlers))
    {
      for i := 0 to |events|
        invariant lastID == old(lastID)
        invariant sigHandlers == map e | e in old(sigHandlers) && e !in events[..i] :: old(sigHandlers)[e]
      {
        sigHandlers := sigHandlers - {events[i]};
        assert events[..i + 1] == events[..i] + [events[i]];
      }
      assert events[..|events|] == events;
    }

    /** No slice that was published is different now. */
    twostate predicate SlicesFrozen(published: map<string, array<SigHandler>>)
      reads published.Values
    {
      forall e :: e in published && old(allocated(published[e])) ==> published[e][..] == old(published[e][..])
    }

    /**
      Calls the handlers of the slice published now, one after the other. Whatever they do to the
      bus meanwhile, exactly those are called, in registration order, and the slice stays as it was.
    */
    method EmitEvent(event: string, reactions: Reactions) returns (invoked: seq<SigHandler>, log: seq<Happening>)
      modifies this
      ensures invoked == Get(old(View()), event)
      ensures log == ReactionLog(old(View()), |invoked|, reactions)
      ensures View() == After(old(View()), log)
      ensures SlicesFrozen(old(sigHandlers))
      decreases ReactionsSize(reactions)
    {
      invoked, log := [], [];
      ghost var start, now := View(), View();
      if event !in sigHandlers {
        NothingDone(start, log);
        return;
      }
      var sigs := sigHandlers[event];
      var rest := reactions;
      ghost var handlers, whole := sigs[..], ReactionLog(start, sigs.Length, reactions);
      BeginReactions(start, sigs.Length, reactions);
      for i := 0 to sigs.Length
        invariant sigs[..] == handlers && invoked == handlers[..i] && now == View()
        invariant ReactionsLeft(start, log, now, sigs.Length - i, rest, whole)
        invariant ReactionsSize(rest) <= ReactionsSize(reactions)
      {
        invoked := invoked + [sigs[i]];
        ReactionDone(start, log, now, sigs.Length - i, rest, whole);
        if rest.React? {
          var done := RunScript(rest.first);
          now := View();
          log, rest := log + done, rest.others;
        }
      }
      EndReactions(start, log, now, rest, whole);
      assert handlers[..sigs.Length] == handlers;
    }

    /** A handler at work: its bus calls, in order. */
    method RunScript(script: Script) returns (log: seq<Happening>)
      modifies this
      ensures log == ScriptLog(old(View()), script)
      ensures View() == After(old(View()), log)
      ensures SlicesFrozen(old(sigHandlers))
      decreases Size(script)
    {
      log := [];
      var rest := script;
      ghost var start := View();
      ghost var whole := ScriptLog(start, script);
      NothingDone(start, whole);
      while rest != Done
        invariant ScriptLeft(start, log, View(), rest, whole) && Size(rest) <= Size(script)
        decreases Size(rest)
      {
        ghost var before, left := View(), rest;
        var done: seq<Happening>;
        match rest {
          case Connect(e, h, next) =>
            var _ := ConnectHandler(e, h);
            done := [Did(Connected(e, h))];
            AfterOne(before, done[0]);
            rest := next;
          case Disconnect(e, id, next) =>
            DisconnectHandler(e, id);
            done := [Did(Disconnected(e, id))];
            AfterOne(before, done[0]);
            rest := next;
          case Clear(es, next) =>
            ClearEvents(es);
            done := [Did(Cleared(es))];
            AfterOne(before, done[0]);
            rest := next;
          case Emit(e, reactions, next) =>
            var invoked, inner := EmitEvent(e, reactions);
            AfterOne(before, Emitted(e, invoked));
            AfterAppend(before, [Emitted(e, invoked)], inner);
            done := [Emitted(e, invoked)] + inner;
            rest := next;
        }
        ScriptDone(start, log, before, left, rest, done, whole);
        log := log + done;
      }
      NothingDone(start, log);
    }
  }
}
