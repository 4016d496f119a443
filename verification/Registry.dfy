/**
  The component registry (bootstrap/registry.go): a name map, a type index and an
  order list changed together. Types are numbers; `pointee` gives a pointer type its
  element type, and may send a type to itself (Go allows `type T *T`).
*/
module Registry {
  import opened Options
  import Q = Seqs

  type TypeId = nat

  datatype Component = Component(typ: TypeId, value: nat)

  datatype Error = EmptyName | NilComponent | AlreadyRegistered(name: string)

  // ---- What the type index should hold ----

  /** How often a component of one type is listed under type t: for itself, and for its element type. */
  function Copies(pointee: map<TypeId, TypeId>, typ: TypeId, t: TypeId): nat {
    (if typ == t then 1 else 0) + if typ in pointee && pointee[typ] == t then 1 else 0
  }

  function Repeat(name: string, n: nat): (r: seq<string>)
    ensures |r| == n && forall i :: 0 <= i < n ==> r[i] == name
  {
    seq(n, i => name)
  }

  predicate Known(order: seq<string>, byName: map<string, Component>) {
    forall i :: 0 <= i < |order| ==> order[i] in byName
  }

  /** The names to be listed under type t: the order list filtered by type, keeping its order. */
  function Listed(pointee: map<TypeId, TypeId>, order: seq<string>, byName: map<string, Component>,
              t: TypeId)
    : seq<string>
    requires Known(order, byName)
  {
    if order == [] then []
    else
      var last := order[|order| - 1];
      Listed(pointee, order[..|order| - 1], byName, t) + Repeat(last, Copies(pointee, byName[last].typ, t))
  }

  function RemoveFirst(s: seq<string>, x: string): seq<string> {
    if s == [] then [] else if s[0] == x then s[1..] else [s[0]] + RemoveFirst(s[1..], x)
  }

  lemma {:induction false} ListedAppend(pointee: map<TypeId, TypeId>, a: seq<string>, b: seq<string>,
              byName: map<string, Component>, t: TypeId)
    requires Known(a, byName) && Known(b, byName)
    ensures Known(a + b, byName)
    ensures Listed(pointee, a + b, byName, t) == Listed(pointee, a, byName, t) + Listed(pointee, b, byName, t)
  {
    if b == [] {
      assert a + b == a;
    } else {
      var front, last := b[..|b| - 1], b[|b| - 1];
      assert (a + b)[..|a + b| - 1] == a + front;
      ListedAppend(pointee, a, front, byName, t);
      Q.Associates(Listed(pointee, a, byName, t), Listed(pointee, front, byName, t),
        Repeat(last, Copies(pointee, byName[last].typ, t)));
    }
  }

  /** A name is listed under its component's type, and under the element type of a pointer. */
  lemma {:induction false} ListedOne(pointee: map<TypeId, TypeId>, name: string, byName: map<string, Component>,
              t: TypeId)
    requires name in byName
    ensures var typ := byName[name].typ;
            Listed(pointee, [name], byName, t) ==
            (if typ == t then [name] else []) + (if typ in pointee && pointee[typ] == t then [name] else [])
  {
    assert [name][..0] == [];
    assert Listed(pointee, [name], byName, t) == [] + Repeat(name, Copies(pointee, byName[name].typ, t));
    assert [name] + [name] == Repeat(name, 2) && Repeat(name, 1) == [name] && Repeat(name, 0) == [];
  }

  /** The index depends only on the types of the listed names. */
  lemma {:induction false} ListedSame(pointee: map<TypeId, TypeId>, order: seq<string>, m: map<string, Component>,
              n: map<string, Component>, t: TypeId)
    requires Known(order, m) && Known(order, n) && forall i :: 0 <= i < |order| ==> m[order[i]] == n[order[i]]
    ensures Listed(pointee, order, m, t) == Listed(pointee, order, n, t)
  {
    if order != [] {
      ListedSame(pointee, order[..|order| - 1], m, n, t);
    }
  }

  lemma {:induction false} ListedFromOrder(pointee: map<TypeId, TypeId>, order: seq<string>,
              byName: map<string, Component>, t: TypeId)
    requires Known(order, byName)
    ensures forall x :: x in Listed(pointee, order, byName, t) ==> x in order
  {
    if order != [] {
      var front, last := order[..|order| - 1], order[|order| - 1];
      ListedFromOrder(pointee, front, byName, t);
      assert order == front + [last];
      forall x | x in Listed(pointee, order, byName, t) ensures x in order {
        assert x in Listed(pointee, front, byName, t) || x in Repeat(last, Copies(pointee, byName[last].typ, t));
      }
    }
  }

  lemma {:induction false} RemoveFirstSkips(a: seq<string>, x: string, b: seq<string>)
    requires x !in a
    ensures RemoveFirst(a + b, x) == a + RemoveFirst(b, x)
  {
    if a == [] {
      assert a + b == b;
    } else {
      assert (a + b)[1..] == a[1..] + b;
      RemoveFirstSkips(a[1..], x, b);
      assert a == [a[0]] + a[1..];
    }
  }

  lemma {:induction false} RemoveFirstAbsent(s: seq<string>, x: string)
    requires x !in s
    ensures RemoveFirst(s, x) == s
  {
    if s != [] {
      RemoveFirstAbsent(s[1..], x);
    }
  }

  /** Removes one occurrence n times. */
  function RemoveTimes(s: seq<string>, x: string, n: nat): seq<string>
    decreases n
  {
    if n == 0 then s else RemoveTimes(RemoveFirst(s, x), x, n - 1)
  }

  lemma {:induction false} RemoveRepeated(a: seq<string>, x: string, n: nat, b: seq<string>)
    requires x !in a
    ensures RemoveTimes(a + Repeat(x, n) + b, x, n) == a + b
  {
    if n == 0 {
      assert a + Repeat(x, 0) + b == a + b;
    } else {
      var tail := Repeat(x, n - 1) + b;
      assert a + Repeat(x, n) + b == a + ([x] + tail);
      RemoveFirstSkips(a, x, [x] + tail);
      assert ([x] + tail)[1..] == tail;
      Q.Associates(a, Repeat(x, n - 1), b);
      RemoveRepeated(a, x, n - 1, b);
    }
  }

  lemma {:induction false} SplitAt(order: seq<string>, name: string) returns (a: seq<string>, b: seq<string>)
    requires name in order
    ensures order == a + [name] + b && name !in a
    ensures RemoveFirst(order, name) == a + b
  {
    var h, t := order[0], order[1..];
    assert order == [h] + t;
    if h == name {
      a, b := [], t;
    } else {
      var a';
      a', b := SplitAt(t, name);
      a := [h] + a';
      Q.Associates([h], a', b);
      Q.Associates([h], a' + [name], b);
      Q.Associates([h], a', [name]);
    }
  }

  /** Removing a name from a list without duplicates removes it altogether. */
  lemma {:induction false} RemoveFirstMembers(s: seq<string>, x: string)
    requires Q.Distinct(s)
    ensures forall y :: y in RemoveFirst(s, x) <==> y in s && y != x
    ensures Q.Distinct(RemoveFirst(s, x))
  {
    if s != [] {
      var h, t := s[0], s[1..];
      assert h !in t;
      Q.InCons(h, t);
      assert s == [h] + t;
      if h != x {
        RemoveFirstMembers(t, x);
        Q.InCons(h, RemoveFirst(t, x));
      }
    }
  }

  lemma {:induction false} ListedAround(pointee: map<TypeId, TypeId>, a: seq<string>, name: string, b: seq<string>,
              byName: map<string, Component>, t: TypeId)
    requires Known(a, byName) && name in byName && Known(b, byName)
    ensures Known(a + [name] + b, byName)
    ensures Listed(pointee, a + [name] + b, byName, t) ==
            Listed(pointee, a, byName, t) + Repeat(name, Copies(pointee, byName[name].typ, t)) +
            Listed(pointee, b, byName, t)
  {
    assert (a + [name])[..|a|] == a;
    ListedAppend(pointee, a + [name], b, byName, t);
  }

  lemma {:induction false} RemovalKeepsKnown(order: seq<string>, byName: map<string, Component>, name: string)
    requires Q.Distinct(order) && Known(order, byName)
    ensures Known(RemoveFirst(order, name), byName - {name})
  {
    RemoveFirstMembers(order, name);
    forall i | 0 <= i < |RemoveFirst(order, name)| ensures RemoveFirst(order, name)[i] in byName - {name} {
      assert RemoveFirst(order, name)[i] in order;
    }
  }

  lemma {:induction false} KnownParts(a: seq<string>, name: string, b: seq<string>, byName: map<string, Component>)
    requires Known(a + [name] + b, byName)
    ensures Known(a, byName) && Known(b, byName) && name in byName
  {
    var all := a + [name] + b;
    assert all[|a|] == name;
    assert forall i :: 0 <= i < |a| ==> a[i] == all[i];
    assert forall i :: 0 <= i < |b| ==> b[i] == all[|a| + 1 + i];
  }

  lemma {:induction false} RemovedFromList(pointee: map<TypeId, TypeId>, a: seq<string>, name: string, b: seq<string>,
              byName: map<string, Component>, t: TypeId)
    requires Known(a, byName) && Known(b, byName) && name in byName && name !in a
    ensures Known(a + [name] + b, byName) && Known(a + b, byName)
    ensures Listed(pointee, a + b, byName, t)
            == RemoveTimes(Listed(pointee, a + [name] + b, byName, t), name, Copies(pointee, byName[name].typ, t))
  {
    ListedAround(pointee, a, name, b, byName, t);
    ListedAppend(pointee, a, b, byName, t);
    ListedFromOrder(pointee, a, byName, t);
    RemoveRepeated(Listed(pointee, a, byName, t), name, Copies(pointee, byName[name].typ, t),
      Listed(pointee, b, byName, t));
  }

  /** Unregistering a name takes its copies out of every list, wherever it stands. */
  lemma {:induction false} ListedAfterRemoval(pointee: map<TypeId, TypeId>, order: seq<string>,
              byName: map<string, Component>, name: string, t: TypeId)
    requires Q.Distinct(order) && Known(order, byName) && name in order && name in byName
    ensures Known(RemoveFirst(order, name), byName - {name})
    ensures Listed(pointee, RemoveFirst(order, name), byName - {name}, t)
            == RemoveTimes(Listed(pointee, order, byName, t), name, Copies(pointee, byName[name].typ, t))
  {
    var a, b := SplitAt(order, name);
    RemovalKeepsKnown(order, byName, name);
    KnownParts(a, name, b, byName);
    RemovedFromList(pointee, a, name, b, byName, t);
    ListedSame(pointee, a + b, byName, byName - {name}, t);
  }

  // ---- The type index as a value ----

  type Index = map<TypeId, seq<string>>

  function At(index: Index, t: TypeId): seq<string> {
    if t in index then index[t] else []
  }

  predicate NoEmptyList(index: Index) {
    forall t :: t in index ==> index[t] != []
  }

  /** The type lists hold what the order list says, and no type has an empty list. */
  ghost predicate Indexes(index: Index, pointee: map<TypeId, TypeId>, order: seq<string>,
              byName: map<string, Component>) {
    Known(order, byName) && NoEmptyList(index) && forall t: TypeId :: At(index, t) == Listed(pointee, order, byName, t)
  }

  function Added(index: Index, t: TypeId, name: string): Index {
    index[t := At(index, t) + [name]]
  }

  function AddedAll(index: Index, pointee: map<TypeId, TypeId>, typ: TypeId, name: string): Index {
    var i1 := Added(index, typ, name);
    if typ in pointee then Added(i1, pointee[typ], name) else i1
  }

  function Dropped(index: Index, t: TypeId, name: string): Index {
    if t !in index then index
    else
      var rest := RemoveFirst(index[t], name);
      if rest == [] then index - {t} else index[t := rest]
  }

  function DroppedAll(index: Index, pointee: map<TypeId, TypeId>, typ: TypeId, name: string): Index {
    var i1 := Dropped(index, typ, name);
    if typ in pointee then Dropped(i1, pointee[typ], name) else i1
  }

  lemma {:induction false} AddedAllAt(index: Index, pointee: map<TypeId, TypeId>, typ: TypeId, name: string, t: TypeId)
    ensures At(AddedAll(index, pointee, typ, name), t) == At(index, t) + Repeat(name, Copies(pointee, typ, t))
  {
    assert At(index, t) + [] == At(index, t);
    assert Repeat(name, 0) == [] && Repeat(name, 1) == [name] && Repeat(name, 2) == [name] + [name];
    Q.Associates(At(index, t), [name], [name]);
  }

  lemma {:induction false} DroppedAllAt(index: Index, pointee: map<TypeId, TypeId>, typ: TypeId, name: string,
              t: TypeId)
    ensures At(DroppedAll(index, pointee, typ, name), t) == RemoveTimes(At(index, t), name, Copies(pointee, typ, t))
  {
    var s := At(index, t);
    assert RemoveTimes(s, name, 0) == s;
    assert RemoveTimes(s, name, 1) == RemoveFirst(s, name);
    assert RemoveTimes(s, name, 2) == RemoveTimes(RemoveFirst(s, name), name, 1) ==
           RemoveFirst(RemoveFirst(s, name), name);
  }

  lemma {:induction false} RegisterKeepsIndex(index: Index, pointee: map<TypeId, TypeId>, order: seq<string>,
              byName: map<string, Component>, name: string, c: Component)
    requires Indexes(index, pointee, order, byName) && name !in byName
    ensures Indexes(AddedAll(index, pointee, c.typ, name), pointee, order + [name], byName[name := c])
  {
    var order', byName', index' := order + [name], byName[name := c], AddedAll(index, pointee, c.typ, name);
    forall t: TypeId ensures At(index', t) == Listed(pointee, order', byName', t) {
      AddedAllAt(index, pointee, c.typ, name, t);
      ListedSame(pointee, order, byName, byName', t);
      assert order'[..|order|] == order;
    }
  }

  lemma {:induction false} UnregisterKeepsIndex(index: Index, pointee: map<TypeId, TypeId>, order: seq<string>,
              byName: map<string, Component>, name: string)
    requires Indexes(index, pointee, order, byName) && Q.Distinct(order) && name in order && name in byName
    ensures Q.Distinct(RemoveFirst(order, name))
    ensures forall x :: x in RemoveFirst(order, name) <==> x in order && x != name
    ensures Indexes(DroppedAll(index, pointee, byName[name].typ, name), pointee, RemoveFirst(order, name),
              byName - {name})
  {
    var index' := DroppedAll(index, pointee, byName[name].typ, name);
    RemovalKeepsKnown(order, byName, name);
    RemoveFirstMembers(order, name);
    forall t: TypeId ensures At(index', t) == Listed(pointee, RemoveFirst(order, name), byName - {name}, t) {
      DroppedAllAt(index, pointee, byName[name].typ, name, t);
      ListedAfterRemoval(pointee, order, byName, name, t);
    }
  }

  lemma {:induction false} NewNameKeepsDistinct(order: seq<string>, name: string)
    requires Q.Distinct(order) && name !in order
    ensures Q.Distinct(order + [name]) && forall x :: x in order + [name] <==> x in order || x == name
  {
  }

  // ---- The registry ----

  class Registry {
    const pointee: map<TypeId, TypeId>
    var byName: map<string, Component>
    var byType: map<TypeId, seq<string>>
    var order: seq<string>

    ghost predicate Valid()
      reads this
    {
      Q.Distinct(order) && (forall x :: x in order <==> x in byName) && Indexes(byType, pointee, order, byName)
    }

    constructor (pointee: map<TypeId, TypeId>)
      ensures Valid() && order == [] && byName == map[] && this.pointee == pointee
    {
      this.pointee := pointee;
      byName, byType, order := map[], map[], [];
    }

    method AddToType(t: TypeId, name: string)
      modifies this`byType
      ensures byType == Added(old(byType), t, name)
    {
      byType := byType[t := (if t in byType then byType[t] else []) + [name]];
    }

    method Register(name: string, component: Option<Component>) returns (err: Option<Error>)
      requires Valid()
      modifies this
      ensures Valid()
      ensures err == if name == "" then Some(EmptyName) else if component.None? then Some(NilComponent)
                     else if name in old(byName) then Some(AlreadyRegistered(name)) else None
      ensures err.Some? ==> order == old(order) && byName == old(byName) && byType == old(byType)
      ensures err.None? ==> order == old(order) + [name] && byName == old(byName)[name := component.value]
    {
      if name == "" {
        return Some(EmptyName);
      }
      if component.None? {
        return Some(NilComponent);
      }
      if name in byName {
        return Some(AlreadyRegistered(name));
      }
      var c := component.value;
      RegisterKeepsIndex(byType, pointee, order, byName, name, c);
      ghost var index, names := AddedAll(byType, pointee, c.typ, name), order;
      NewNameKeepsDistinct(names, name);
      byName := byName[name := c];
      order := order + [name];
      var t := c.typ;
      AddToType(t, name);
      if t in pointee {
        AddToType(pointee[t], name);
      }
      assert byType == index;
      err := None;
    }

    /** One occurrence is cut out of a type's list; an emptied list is deleted with its key. */
    method DropFromType(t: TypeId, name: string)
      modifies this`byType
      ensures byType == Dropped(old(byType), t, name)
    {
      if t in byType {
        var names := CutFirst(byType[t], name);
        byType := byType[t := names];
        if names == [] {
          byType := byType - {t};
        }
      }
    }

    method Unregister(name: string) returns (found: bool)
      requires Valid()
      modifies this
      ensures Valid() && (found <==> name in old(byName))
      ensures !found ==> order == old(order) && byName == old(byName) && byType == old(byType)
      ensures found ==> order == RemoveFirst(old(order), name) && byName == old(byName) - {name}
    {
      if name !in byName {
        return false;
      }
      var t := byName[name].typ;
      UnregisterKeepsIndex(byType, pointee, order, byName, name);
      byName := byName - {name};
      order := CutFirst(order, name);
      DropFromType(t, name);
      if t in pointee {
        DropFromType(pointee[t], name);
      }
      found := true;
    }

    /** The component of the earliest surviving registration listed under the type. */
    method GetByType(t: TypeId) returns (c: Option<Component>)
      requires Valid()
      ensures c == FirstOfType(pointee, order, byName, t)
    {
      FirstIsFirst(pointee, order, byName, t);
      assert At(byType, t) == Listed(pointee, order, byName, t);
      if t !in byType || |byType[t]| == 0 {
        return None;
      }
      c := Some(byName[byType[t][0]]);
    }

    method GetAllByType(t: TypeId) returns (cs: seq<Component>)
      requires Valid()
      ensures IsComponentsOf(cs, Listed(pointee, order, byName, t), byName)
    {
      ListedKnown(pointee, order, byName, t);
      var names := if t in byType then byType[t] else [];
      assert names == At(byType, t) == Listed(pointee, order, byName, t);
      cs := [];
      for i := 0 to |names|
        invariant |cs| == i && forall k :: 0 <= k < i ==> cs[k] == byName[names[k]]
      {
        cs := cs + [byName[names[i]]];
      }
    }

    /** Visits components in registration order until the callback says stop. */
    method Range(fn: (string, Component) -> bool) returns (visited: seq<string>)
      requires Valid()
      ensures visited <= order
      ensures forall i :: 0 <= i < |visited| - 1 ==> fn(order[i], byName[order[i]])
      ensures |visited| < |order| ==> visited != [] && !fn(order[|visited| - 1], byName[order[|visited| - 1]])
    {
      visited := [];
      for i := 0 to |order|
        invariant visited == order[..i]
        invariant forall k :: 0 <= k < i ==> fn(order[k], byName[order[k]])
      {
        visited := visited + [order[i]];
        if !fn(order[i], byName[order[i]]) {
          return;
        }
      }
    }
  }

  predicate IsComponentsOf(cs: seq<Component>, names: seq<string>, byName: map<string, Component>) {
    Known(names, byName) && |cs| == |names| && forall i :: 0 <= i < |cs| ==> cs[i] == byName[names[i]]
  }

  lemma {:induction false} ListedKnown(pointee: map<TypeId, TypeId>, order: seq<string>, byName: map<string,
              Component>, t: TypeId)
    requires Known(order, byName)
    ensures Known(Listed(pointee, order, byName, t), byName)
  {
    var listed := Listed(pointee, order, byName, t);
    ListedFromOrder(pointee, order, byName, t);
    forall i | 0 <= i < |listed| ensures listed[i] in byName {
      assert listed[i] in order;
    }
  }

  /** The loop that removes the first occurrence of a name from a slice. */
  method CutFirst(s: seq<string>, x: string) returns (r: seq<string>)
    ensures r == RemoveFirst(s, x)
  {
    r := s;
    for i := 0 to |s|
      invariant r == s && x !in s[..i]
    {
      if s[i] == x {
        r := s[..i] + s[i + 1..];
        assert s == s[..i] + s[i..] && s[i..][1..] == s[i + 1..];
        RemoveFirstSkips(s[..i], x, s[i..]);
        return;
      }
    }
    assert s[..|s|] == s;
    RemoveFirstAbsent(s, x);
  }

  /** The first component in registration order that is of type t or points to it. */
  function FirstOfType(pointee: map<TypeId, TypeId>, order: seq<string>, byName: map<string, Component>,
              t: TypeId): Option<Component>
    requires Known(order, byName)
  {
    if order == [] then None
    else if byName[order[0]].typ == t || (byName[order[0]].typ in pointee && pointee[byName[order[0]].typ] == t)
    then Some(byName[order[0]])
    else FirstOfType(pointee, order[1..], byName, t)
  }

  lemma {:induction false} FirstIsFirst(pointee: map<TypeId, TypeId>, order: seq<string>, byName: map<string,
              Component>, t: TypeId)
    requires Known(order, byName)
    ensures var listed := Listed(pointee, order, byName, t);
            if listed == [] then FirstOfType(pointee, order, byName, t) == None
            else listed[0] in byName && FirstOfType(pointee, order, byName, t) == Some(byName[listed[0]])
  {
    if order != [] {
      FirstIsFirst(pointee, order[1..], byName, t);
      ListedAppend(pointee, [order[0]], order[1..], byName, t);
      assert order == [order[0]] + order[1..];
      var n := Copies(pointee, byName[order[0]].typ, t);
      assert [order[0]][..0] == [] && Listed(pointee, [order[0]], byName, t) == [] + Repeat(order[0], n) ==
             Repeat(order[0], n);
    }
  }

  lemma {:induction false} DistinctWithCopies(listed: seq<string>, x: string, n: nat)
    requires x !in listed && n <= 2
    ensures Q.Distinct(listed + Repeat(x, n)) <==> Q.Distinct(listed) && n < 2
  {
    var all := listed + Repeat(x, n);
    assert forall i :: 0 <= i < |listed| ==> all[i] == listed[i] && listed[i] != x;
    if n == 2 {
      assert all[|listed|] == all[|listed| + 1];
    }
    if !Q.Distinct(listed) {
      var i, j :| 0 <= i < j < |listed| && listed[i] == listed[j];
      assert all[i] == all[j];
    }
  }

  /** Someone in the list is of type t itself. */
  predicate HasType(order: seq<string>, byName: map<string, Component>, t: TypeId)
    requires Known(order, byName)
  {
    exists i :: 0 <= i < |order| && byName[order[i]].typ == t
  }

  lemma {:induction false} HasTypeSnoc(order: seq<string>, byName: map<string, Component>, t: TypeId)
    requires Known(order, byName) && order != []
    ensures HasType(order, byName, t) <==>
            HasType(order[..|order| - 1], byName, t) || byName[order[|order| - 1]].typ == t
  {
    var front := order[..|order| - 1];
    if i :| 0 <= i < |order| && byName[order[i]].typ == t {
      assert i < |front| ==> front[i] == order[i];
    }
  }

  /** A type's list names nobody twice exactly when no listed component's type is its own element type. */
  lemma {:induction false} ListedTwiceIffOwnElement(pointee: map<TypeId, TypeId>, order: seq<string>,
              byName: map<string, Component>, t: TypeId)
    requires Q.Distinct(order) && Known(order, byName)
    ensures Q.Distinct(Listed(pointee, order, byName, t)) <==>
            !(t in pointee && pointee[t] == t && HasType(order, byName, t))
  {
    if order != [] {
      var front, last := order[..|order| - 1], order[|order| - 1];
      var listed, n := Listed(pointee, front, byName, t), Copies(pointee, byName[last].typ, t);
      ListedTwiceIffOwnElement(pointee, front, byName, t);
      ListedFromOrder(pointee, front, byName, t);
      assert last !in front;
      DistinctWithCopies(listed, last, n);
      HasTypeSnoc(order, byName, t);
    }
  }
}
