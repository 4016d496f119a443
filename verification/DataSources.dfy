/**
  The datasource manager (common/dbs_multi.go): its bookkeeping, and round-robin picks over
  64-bit counters. A pick takes its ticket in one atomic step, so any concurrent callers
  together take consecutive tickets.
*/
module DataSources {
  import opened Options
  import Q = Seqs

  type Db = nat

  datatype Role = RoleWrite | RoleRead | OtherRole

  /** A configuration; an absent role counts as RoleWrite. */
  datatype Config = Config(name: string, role: Option<Role>, dsn: string)

  // ---- Round robin ----

  const WRAP := 0x1_0000_0000_0000_0000

  /** The replica of the pick that takes this ticket. */
  function Pick(ticket: nat, n: nat): (i: nat)
    requires n > 0
    ensures i < n
  {
    (ticket % WRAP) % n
  }

  /** How often replica i is picked in k picks from this ticket on. */
  function Picks(ticket: nat, k: nat, n: nat, i: nat): nat
    requires n > 0
  {
    if k == 0 then 0 else Picks(ticket, k - 1, n, i) + if Pick(ticket + k - 1, n) == i then 1 else 0
  }

  function Next(i: nat, n: nat): nat {
    if i + 1 == n then 0 else i + 1
  }

  lemma {:induction false} MulGrows(n: nat, a: nat, b: nat)
    requires a < b
    ensures n * a + n <= n * b
  {
    if a + 1 < b {
      MulGrows(n, a, b - 1);
    }
  }

  /** Quotient and remainder are unique. */
  lemma {:induction false} ModIs(x: nat, n: nat, q: nat, r: nat)
    requires r < n && x == n * q + r
    ensures x % n == r
  {
    var q', r' := x / n, x % n;
    assert x == n * q' + r';
    if q' < q {
      MulGrows(n, q', q);
    } else if q < q' {
      MulGrows(n, q, q');
    }
  }

  lemma {:induction false} ModStep(x: nat, n: nat)
    requires n > 0
    ensures (x + 1) % n == Next(x % n, n)
  {
    var q, r := x / n, x % n;
    assert x == n * q + r;
    if r + 1 == n {
      ModIs(x + 1, n, q + 1, 0);
    } else {
      ModIs(x + 1, n, q, r + 1);
    }
  }

  /** The next ticket picks the next replica, unless the counter wraps and n does not divide its range. */
  lemma {:induction false} PickStep(ticket: nat, n: nat)
    requires n > 0 && ((ticket + 1) % WRAP != 0 || WRAP % n == 0)
    ensures Pick(ticket + 1, n) == Next(Pick(ticket, n), n)
  {
    ModStep(ticket, WRAP);
    var t := ticket % WRAP;
    if t + 1 == WRAP {
      ModStep(t, n);
      assert (t + 1) % n == 0;
      ModIs(0, n, 0, 0);
    } else {
      ModStep(t, n);
    }
  }

  /** On the circle of n replicas, i lies at or after s and before r. */
  predicate InArc(s: nat, r: nat, i: nat) {
    if s <= r then s <= i < r else s <= i || i < r
  }

  /** Each replica was picked q times, those from s up to r once more. */
  predicate EvenlyPicked(ticket: nat, k: nat, n: nat, q: nat)
    requires n > 0
  {
    forall i :: 0 <= i < n ==>
      Picks(ticket, k, n, i) == q + if InArc(Pick(ticket, n), Pick(ticket + k, n), i) then 1 else 0
  }

  /** The counter does not wrap within the window, or the wrap keeps the order. */
  predicate NoUnevenWrap(ticket: nat, k: nat, n: nat)
    requires n > 0
  {
    WRAP % n == 0 || ticket % WRAP + k < WRAP
  }

  lemma {:induction false} WindowIsEven(ticket: nat, k: nat, n: nat) returns (q: nat)
    requires n > 0 && NoUnevenWrap(ticket, k, n)
    ensures EvenlyPicked(ticket, k, n, q)
  {
    if k == 0 {
      q := 0;
    } else {
      var q' := WindowIsEven(ticket, k - 1, n);
      if WRAP % n != 0 {
        ModIs(ticket + k, WRAP, ticket / WRAP, ticket % WRAP + k);
      }
      PickStep(ticket + k - 1, n);
      q := if Pick(ticket + k, n) == Pick(ticket, n) then q' + 1 else q';
    }
  }

  /** Any two replicas were picked equally often in the window, give or take one. */
  predicate Balanced(ticket: nat, k: nat, n: nat)
    requires n > 0
  {
    forall i, j :: 0 <= i < n && 0 <= j < n ==> Picks(ticket, k, n, i) <= Picks(ticket, k, n, j) + 1
  }

  /** Every window without a counter wrap is balanced. */
  lemma {:induction false} UnwrappedWindowIsBalanced(ticket: nat, k: nat, n: nat)
    requires n > 0 && ticket % WRAP + k <= WRAP
    ensures Balanced(ticket, k, n)
  {
    if k > 0 {
      var q := WindowIsEven(ticket, k - 1, n);
    }
  }

  /** What the pick just before a wrap and the k picks after it choose. */
  function AroundWrap(k: nat, n: nat, i: nat): nat
    requires n > 0
  {
    (if i < k then 1 else 0) + if i == (WRAP - 1) % n then 1 else 0
  }

  lemma {:induction false} PicksAfterWrap(k: nat, n: nat)
    requires 0 < n < WRAP && k <= n
    ensures forall i :: 0 <= i < n ==> Picks(WRAP - 1, k + 1, n, i) == AroundWrap(k, n, i)
  {
    if k == 0 {
      ModIs(WRAP - 1, WRAP, 0, WRAP - 1);
      forall i | 0 <= i < n ensures Picks(WRAP - 1, 1, n, i) == AroundWrap(0, n, i) {
        assert Picks(WRAP - 1, 0, n, i) == 0;
      }
    } else {
      PicksAfterWrap(k - 1, n);
      ModIs(WRAP - 1 + k, WRAP, 1, k - 1);
      ModIs(k - 1, n, 0, k - 1);
      assert Pick(WRAP - 1 + k, n) == k - 1;
      forall i | 0 <= i < n ensures Picks(WRAP - 1, k + 1, n, i) == AroundWrap(k, n, i) {
        assert Picks(WRAP - 1, k, n, i) == AroundWrap(k - 1, n, i);
      }
    }
  }

  ghost predicate AlwaysBalanced(n: nat)
    requires n > 0
  {
    forall ticket, k :: Balanced(ticket, k, n)
  }

  lemma {:induction false} DividingStaysBalanced(ticket: nat, k: nat, n: nat)
    requires n > 0 && WRAP % n == 0
    ensures Balanced(ticket, k, n)
  {
    var q := WindowIsEven(ticket, k, n);
  }

  /** The window from the last ticket before a wrap picks one replica twice and the next one never. */
  lemma {:induction false} WrapIsUneven(n: nat)
    requires 0 < n < WRAP && WRAP % n != 0
    ensures !Balanced(WRAP - 1, (WRAP - 1) % n + 2, n)
  {
    var r := (WRAP - 1) % n;
    ModStep(WRAP - 1, n);
    assert r + 1 < n;
    PicksAfterWrap(r + 1, n);
    assert AroundWrap(r + 1, n, r) == 2 && AroundWrap(r + 1, n, r + 1) == 0;
    assert Picks(WRAP - 1, r + 2, n, r) == 2 && Picks(WRAP - 1, r + 2, n, r + 1) == 0;
  }

  /** Windows stay balanced across counter wraps exactly when the number of replicas divides 2^64. */
  lemma {:induction false} AlwaysBalancedIffDivides(n: nat)
    requires 0 < n < WRAP
    ensures AlwaysBalanced(n) <==> WRAP % n == 0
  {
    if WRAP % n == 0 {
      forall ticket: nat, k: nat ensures Balanced(ticket, k, n) {
        DividingStaysBalanced(ticket, k, n);
      }
    } else {
      WrapIsUneven(n);
    }
  }

  // ---- Selection from a context ----

  /** What a pick depends on: the connections, and the next tickets. */
  datatype Pool = Pool(writers: seq<Db>, readers: seq<Db>, byName: map<string, Db>, readIdx: nat, writeIdx: nat)

  function Writer(p: Pool): Db
    requires p.writers != []
  {
    p.writers[Pick(p.writeIdx, |p.writers|)]
  }

  function Reader(p: Pool): Db
    requires p.writers != []
  {
    if p.readers == [] then Writer(p) else p.readers[Pick(p.readIdx, |p.readers|)]
  }

  /** A known name, then the role, then a writer. */
  function Selected(p: Pool, role: Option<Role>, name: string): Db
    requires p.writers != []
  {
    if name != "" && name in p.byName then p.byName[name] else if role == Some(RoleRead) then Reader(p) else Writer(p)
  }

  /**
    What a context selects: the connection of a name that is configured; otherwise, for the read role,
    the next reader in turn, or a writer when there are no readers; otherwise the next writer in turn.
  */
  lemma {:induction false} SelectedIs(p: Pool, role: Option<Role>, name: string)
    requires p.writers != []
    ensures name != "" && name in p.byName ==> Selected(p, role, name) == p.byName[name]
    ensures name == "" || name !in p.byName ==>
              Selected(p, role, name) ==
              if role == Some(RoleRead) && p.readers != [] then
                p.readers[p.readIdx % 0x1_0000_0000_0000_0000 % |p.readers|]
              else
                p.writers[p.writeIdx % 0x1_0000_0000_0000_0000 % |p.writers|]
  {
    assert Writer(p) == p.writers[Pick(p.writeIdx, |p.writers|)];
  }

  /** The connection for a context: what it selects, or else the fallback, or else nil. */
  function Chosen(selected: Option<Db>, fallback: Option<Db>): Option<Db> {
    if selected.Some? then selected else fallback
  }

  /** The documented choice: without a fallback, the default write connection. */
  function Documented(selected: Option<Db>, fallback: Option<Db>, defaultWrite: Db): Option<Db> {
    Some(if selected.Some? then selected.value else if fallback.Some? then fallback.value else defaultWrite)
  }

  /** The choice is the documented one exactly when the context selects or a fallback is given; otherwise it is nil. */
  lemma {:induction false} DocumentedIffGiven(selected: Option<Db>, fallback: Option<Db>, defaultWrite: Db)
    ensures Chosen(selected, fallback) == Documented(selected, fallback, defaultWrite) <==>
            selected.Some? || fallback.Some?
    ensures Chosen(selected, fallback) == None <==> selected == None && fallback == None
  {
  }

  /** Pinning a name that is not configured selects a writer, as Use(RoleWrite) would. */
  lemma {:induction false} UnknownNameSelectsWriter(p: Pool, name: string)
    requires p.writers != [] && name !in p.byName
    ensures Selected(p, None, name) == Selected(p, Some(RoleWrite), "") == Writer(p)
  {
  }

  // ---- The manager ----

  function Names(cs: seq<Config>): seq<string> {
    seq(|cs|, i requires 0 <= i < |cs| => cs[i].name)
  }

  /** The connections, in order, of the configurations that are read-only, or that are not. */
  function Select(cs: seq<Config>, open: Config -> Option<Db>, reading: bool): (dbs: seq<Db>) {
    if cs == [] then []
    else
      var c := cs[|cs| - 1];
      Select(cs[..|cs| - 1], open, reading)
      + if (c.role == Some(RoleRead)) == reading && open(c).Some? then [open(c).value] else []
  }

  predicate Accepted(cs: seq<Config>, open: Config -> Option<Db>) {
    && Q.Distinct(Names(cs))
    && forall i :: 0 <= i < |cs| ==> cs[i].name != "" && cs[i].dsn != "" && open(cs[i]).Some?
  }

  /** Each name leads to the connection of its configuration. */
  ghost predicate Named(cs: seq<Config>, open: Config -> Option<Db>, byName: map<string, Db>) {
    && (forall name :: name in byName <==> name in Names(cs))
    && forall i :: 0 <= i < |cs| ==> cs[i].name in byName && Some(byName[cs[i].name]) == open(cs[i])
  }

  lemma {:induction false} NamesGrow(cs: seq<Config>, c: Config)
    ensures Names(cs + [c]) == Names(cs) + [c.name]
  {
  }

  /** The configuration can be opened after these. */
  predicate MayFollow(front: seq<Config>, c: Config, open: Config -> Option<Db>) {
    c.name != "" && c.dsn != "" && c.name !in Names(front) && open(c).Some?
  }

  lemma {:induction false} AcceptedGrows(front: seq<Config>, c: Config, open: Config -> Option<Db>)
    requires Accepted(front, open) && MayFollow(front, c, open)
    ensures Accepted(front + [c], open)
  {
    NamesGrow(front, c);
  }

  lemma {:induction false} AcceptedMayFollow(cs: seq<Config>, i: nat, open: Config -> Option<Db>)
    requires i < |cs| && Accepted(cs, open)
    ensures MayFollow(cs[..i], cs[i], open)
  {
    assert forall j :: 0 <= j < i ==> Names(cs[..i])[j] == Names(cs)[j];
    assert Names(cs)[i] == cs[i].name;
  }

  lemma {:induction false} NamedGrows(front: seq<Config>, c: Config, open: Config -> Option<Db>,
              byName: map<string, Db>)
    requires Named(front, open, byName) && MayFollow(front, c, open)
    ensures Named(front + [c], open, byName[c.name := open(c).value])
  {
    var all, byName' := front + [c], byName[c.name := open(c).value];
    NamesGrow(front, c);
    forall name ensures name in byName' <==> name in Names(all) {
      assert name in Names(all) <==> name in Names(front) || name == c.name;
    }
    forall i | 0 <= i < |all| ensures all[i].name in byName' && Some(byName'[all[i].name]) == open(all[i]) {
      if i < |front| {
        assert all[i] == front[i] && Names(front)[i] == front[i].name;
      }
    }
  }

  lemma {:induction false} SelectGrows(front: seq<Config>, c: Config, open: Config -> Option<Db>, reading: bool)
    ensures Select(front + [c], open, reading) ==
            if (c.role == Some(RoleRead)) == reading && open(c).Some?
            then Select(front, open, reading) + [open(c).value]
            else Select(front, open, reading)
  {
    assert (front + [c])[..|front|] == front;
    assert Select(front, open, reading) + [] == Select(front, open, reading);
  }

  /** What the loop has after these configurations. */
  ghost predicate Opened(cs: seq<Config>, open: Config -> Option<Db>, writers: seq<Db>, readers: seq<Db>,
              byName: map<string, Db>) {
    Accepted(cs, open) && Named(cs, open, byName) && writers == Select(cs, open, false)
    && readers == Select(cs, open, true)
  }

  lemma {:induction false} OpenedGrows(cs: seq<Config>, i: nat, open: Config -> Option<Db>, writers: seq<Db>,
              readers: seq<Db>, byName: map<string, Db>)
    requires i < |cs| && Opened(cs[..i], open, writers, readers, byName) && MayFollow(cs[..i], cs[i], open)
    ensures var c := cs[i]; var db := open(c).value;
            if c.role == Some(RoleRead) then Opened(cs[..i + 1], open, writers, readers + [db], byName[c.name := db])
            else Opened(cs[..i + 1], open, writers + [db], readers, byName[c.name := db])
  {
    var front, c := cs[..i], cs[i];
    assert cs[..i + 1] == front + [c];
    AcceptedGrows(front, c, open);
    NamedGrows(front, c, open, byName);
    SelectGrows(front, c, open, false);
    SelectGrows(front, c, open, true);
  }

  /** Opens every datasource in order; None when one is refused, or no writer is left. */
  method OpenAll(cs: seq<Config>, open: Config -> Option<Db>) returns (m: Option<DataSourceManager>)
    ensures m.Some? <==> cs != [] && Accepted(cs, open) && Select(cs, open, false) != []
    ensures m.Some? ==> fresh(m.value) && m.value.Valid() && m.value.readIdx == 0 && m.value.writeIdx == 0
                        && m.value.writers == Select(cs, open, false) && m.value.readers == Select(cs, open, true)
                        && Named(cs, open, m.value.byName)
  {
    if cs == [] {
      return None;
    }
    var writers: seq<Db>, readers: seq<Db>, byName: map<string, Db> := [], [], map[];
    assert cs[..0] == [] && cs[..|cs|] == cs;
    for i := 0 to |cs|
      invariant Opened(cs[..i], open, writers, readers, byName)
    {
      var c := cs[i];
      if Accepted(cs, open) {
        AcceptedMayFollow(cs, i, open);
      }
      if c.name == "" || c.dsn == "" || c.name in byName || open(c).None? {
        return None;
      }
      OpenedGrows(cs, i, open, writers, readers, byName);
      var db := open(c).value;
      byName := byName[c.name := db];
      if c.role == Some(RoleRead) {
        readers := readers + [db];
      } else {
        writers := writers + [db];
      }
    }
    if writers == [] {
      return None;
    }
    var manager := new DataSourceManager(writers, readers, byName);
    return Some(manager);
  }

  class DataSourceManager {
    const writers: seq<Db>
    const readers: seq<Db>
    const byName: map<string, Db>
    var readIdx: nat
    var writeIdx: nat

    ghost predicate Valid() {
      writers != []
    }

    constructor (writers: seq<Db>, readers: seq<Db>, byName: map<string, Db>)
      ensures this.writers == writers && this.readers == readers && this.byName == byName
      ensures readIdx == 0 && writeIdx == 0
    {
      this.writers, this.readers, this.byName := writers, readers, byName;
      readIdx, writeIdx := 0, 0;
    }

    /** Counts the tickets taken; the pick uses their value modulo 2^64. */
    method Write() returns (db: Db)
      requires Valid()
      modifies this`writeIdx
      ensures db == writers[Pick(old(writeIdx), |writers|)]
      ensures writeIdx == if |writers| == 1 then old(writeIdx) else old(writeIdx) + 1
    {
      if |writers| == 1 {
        return writers[0];
      }
      writeIdx := writeIdx + 1;
      db := writers[Pick(writeIdx - 1, |writers|)];
    }

    method Read() returns (db: Db)
      requires Valid()
      modifies this`readIdx, this`writeIdx
      ensures db == if readers == [] then writers[Pick(old(writeIdx), |writers|)]
              else readers[Pick(old(readIdx), |readers|)]
      ensures readIdx == if |readers| <= 1 then old(readIdx) else old(readIdx) + 1
      ensures writeIdx == if readers == [] && |writers| > 1 then old(writeIdx) + 1 else old(writeIdx)
    {
      if |readers| == 0 {
        db := Write();
        return;
      }
      if |readers| == 1 {
        return readers[0];
      }
      readIdx := readIdx + 1;
      db := readers[Pick(readIdx - 1, |readers|)];
    }

    ghost function View(): Pool
      reads this
    {
      Pool(writers, readers, byName, readIdx, writeIdx)
    }
  }

  /** What Use or UseName puts into a context; Use leaves the name empty and UseName the role. */
  datatype Selection = Selection(mgr: Option<DataSourceManager>, role: Option<Role>, name: string)

  predicate HasManager(sel: Option<Selection>) {
    sel.Some? && sel.value.mgr.Some?
  }

  /** Selects by name, then by role, then falls back; a known name takes no ticket. */
  method FromContext(sel: Option<Selection>, fallback: Option<Db>) returns (db: Option<Db>)
    requires HasManager(sel) ==> sel.value.mgr.value.Valid()
    modifies if HasManager(sel) then {sel.value.mgr.value} else {}
    ensures HasManager(sel) ==>
              db == Chosen(Some(Selected(old(sel.value.mgr.value.View()), sel.value.role, sel.value.name)), fallback)
    ensures !HasManager(sel) ==> db == Chosen(None, fallback)
    ensures db.Some? <==> HasManager(sel) || fallback.Some?
    ensures HasManager(sel) && sel.value.name != "" && sel.value.name in sel.value.mgr.value.byName ==>
              sel.value.mgr.value.View() == old(sel.value.mgr.value.View())
    ensures HasManager(sel) && (sel.value.name == "" || sel.value.name !in sel.value.mgr.value.byName) ==>
              var before, m := old(sel.value.mgr.value.View()), sel.value.mgr.value;
              var reading := sel.value.role == Some(RoleRead);
              && m.readIdx == before.readIdx + (if reading && |m.readers| > 1 then 1 else 0)
              && m.writeIdx == before.writeIdx + (if (!reading || m.readers == []) && |m.writers| > 1 then 1 else 0)
  {
    if HasManager(sel) {
      var m := sel.value.mgr.value;
      if sel.value.name != "" {
        if sel.value.name in m.byName {
          return Some(m.byName[sel.value.name]);
        }
      }
      var picked;
      if sel.value.role == Some(RoleRead) {
        picked := m.Read();
      } else {
        picked := m.Write();
      }
      return Some(picked);
    }
    return fallback;
  }
}
