/**
  Version comparison and the choice of the highest required version (lingcli/fullmode.go).
  Version strings are byte strings; an `int` has 64 bits.
*/
module Versions {
  import opened Options
  import Q = Seqs
  import S = Strings

  // ---- Lexicographic order, short sequences padded with zeros ----

  function At(xs: seq<nat>, i: nat): nat {
    if i < |xs| then xs[i] else 0
  }

  /** The sign of xs - ys, from position i on. */
  function Cmp(xs: seq<nat>, ys: seq<nat>, i: nat): (c: int)
    ensures c in {-1, 0, 1}
    decreases |xs| + |ys| - i
  {
    if i >= |xs| && i >= |ys| then 0
    else if At(xs, i) > At(ys, i) then 1
    else if At(xs, i) < At(ys, i) then -1
    else Cmp(xs, ys, i + 1)
  }

  /** The sequences first differ at k. */
  predicate DifferAt(xs: seq<nat>, ys: seq<nat>, k: nat) {
    At(xs, k) != At(ys, k) && forall j :: 0 <= j < k ==> At(xs, j) == At(ys, j)
  }

  lemma {:induction false} CmpIsEqual(xs: seq<nat>, ys: seq<nat>, i: nat)
    requires forall j: nat :: j < i ==> At(xs, j) == At(ys, j)
    ensures Cmp(xs, ys, i) == 0 ==> forall j: nat :: At(xs, j) == At(ys, j)
    ensures Cmp(xs, ys, i) != 0 ==>
              exists k: nat :: DifferAt(xs, ys, k) && (Cmp(xs, ys, i) > 0 <==> At(xs, k) > At(ys, k))
    decreases |xs| + |ys| - i
  {
    if At(xs, i) != At(ys, i) {
      assert DifferAt(xs, ys, i);
    } else if i < |xs| || i < |ys| {
      CmpIsEqual(xs, ys, i + 1);
    }
  }

  lemma {:induction false} CmpDiffers(xs: seq<nat>, ys: seq<nat>, i: nat, k: nat)
    requires DifferAt(xs, ys, k) && i <= k
    ensures Cmp(xs, ys, i) == if At(xs, k) > At(ys, k) then 1 else -1
    decreases k - i
  {
    if i < k {
      CmpDiffers(xs, ys, i + 1, k);
    }
  }

  lemma {:induction false} CmpSame(xs: seq<nat>, ys: seq<nat>, i: nat)
    requires forall j: nat :: At(xs, j) == At(ys, j)
    ensures Cmp(xs, ys, i) == 0
    decreases |xs| + |ys| - i
  {
    if i < |xs| || i < |ys| {
      CmpSame(xs, ys, i + 1);
    }
  }

  lemma {:induction false} CmpFlips(xs: seq<nat>, ys: seq<nat>, i: nat)
    ensures Cmp(ys, xs, i) == -Cmp(xs, ys, i)
    decreases |xs| + |ys| - i
  {
    if i < |xs| || i < |ys| {
      CmpFlips(xs, ys, i + 1);
    }
  }

  /** Below is transitive, and strictly so when either step is strict. */
  lemma {:induction false} CmpChains(xs: seq<nat>, ys: seq<nat>, zs: seq<nat>)
    requires Cmp(xs, ys, 0) <= 0 && Cmp(ys, zs, 0) <= 0
    ensures Cmp(xs, zs, 0) <= 0
    ensures Cmp(xs, zs, 0) == 0 <==> Cmp(xs, ys, 0) == 0 && Cmp(ys, zs, 0) == 0
  {
    CmpIsEqual(xs, ys, 0);
    CmpIsEqual(ys, zs, 0);
    if Cmp(xs, ys, 0) == 0 && Cmp(ys, zs, 0) == 0 {
      CmpSame(xs, zs, 0);
    } else if Cmp(xs, ys, 0) == 0 {
      var k: nat :| DifferAt(ys, zs, k) && At(ys, k) <= At(zs, k);
      assert DifferAt(xs, zs, k);
      CmpDiffers(xs, zs, 0, k);
    } else if Cmp(ys, zs, 0) == 0 {
      var k: nat :| DifferAt(xs, ys, k) && At(xs, k) <= At(ys, k);
      assert DifferAt(xs, zs, k);
      CmpDiffers(xs, zs, 0, k);
    } else {
      var j: nat :| DifferAt(xs, ys, j) && At(xs, j) <= At(ys, j);
      var k: nat :| DifferAt(ys, zs, k) && At(ys, k) <= At(zs, k);
      var m := if j <= k then j else k;
      assert DifferAt(xs, zs, m);
      CmpDiffers(xs, zs, 0, m);
    }
  }

  // ---- Version strings ----

  const MAX_INT := 0x7FFF_FFFF_FFFF_FFFF

  predicate IsDigit(c: char) {
    '0' <= c <= '9'
  }

  function Parts(s: string): (ps: seq<string>)
    ensures ps != []
  {
    S.Pieces(s, '.')
  }

  /** A part up to its first `-` or `+`. */
  function Release(part: string): string {
    if part == "" || part[0] == '-' || part[0] == '+' then "" else [part[0]] + Release(part[1..])
  }

  function SkipBlanks(s: string): string {
    if s != "" && S.IsSpace(s[0]) && s[0] != '\n' then SkipBlanks(s[1..]) else s
  }

  /** The value of the digits a string starts with, read after the value acc. */
  function Value(s: string, acc: nat): nat {
    if s == "" || !IsDigit(s[0]) then acc else Value(s[1..], 10 * acc + (s[0] as int - '0' as int))
  }

  /** What scanning a part for a decimal number stores: nothing, so 0, when there are no digits or too many. */
  function Number(part: string): nat {
    var n := Value(SkipBlanks(Release(part)), 0);
    if n <= MAX_INT then n else 0
  }

  function Numbers(parts: seq<string>): (ns: seq<nat>)
    ensures |ns| == |parts| && forall i :: 0 <= i < |ns| ==> ns[i] == Number(parts[i])
  {
    seq(|parts|, i requires 0 <= i < |parts| => Number(parts[i]))
  }

  function WithoutV(s: string): string {
    if S.HasPrefix(s, "v") then s[1..] else s
  }

  /** Read as a pseudo-version. */
  predicate Pseudo(s: string) {
    S.HasPrefix(WithoutV(s), "0.0.0-")
  }

  /** Long enough to hold the timestamp of a pseudo-version. */
  predicate Long(s: string) {
    |WithoutV(s)| >= 20
  }

  function Codes(s: string): (cs: seq<nat>)
    ensures |cs| == |s| && forall i :: 0 <= i < |s| ==> cs[i] == s[i] as nat
  {
    seq(|s|, i requires 0 <= i < |s| => s[i] as nat)
  }

  function Stamp(s: string): seq<nat>
    requires Long(s)
  {
    Codes(WithoutV(s)[6..20])
  }

  function Nums(s: string): seq<nat> {
    Numbers(Parts(WithoutV(s)))
  }

  /** The comparison; None is the slice panic on a short pseudo-version. */
  function Compare(a: string, b: string): Option<int> {
    if Pseudo(a) && Pseudo(b) then
      if Long(a) && Long(b) then Some(Cmp(Stamp(a), Stamp(b), 0)) else None
    else Some(Cmp(Nums(a), Nums(b), 0))
  }

  /** The byte order of two strings of one length. */
  method CompareBytes(a: string, b: string) returns (c: int)
    requires |a| == |b|
    ensures c == Cmp(Codes(a), Codes(b), 0)
  {
    for i := 0 to |a|
      invariant Cmp(Codes(a), Codes(b), 0) == Cmp(Codes(a), Codes(b), i)
    {
      if a[i] != b[i] {
        return if a[i] > b[i] then 1 else -1;
      }
    }
    return 0;
  }

  method CompareVersions(a: string, b: string) returns (c: Option<int>)
    ensures c == Compare(a, b)
  {
    var x, y := WithoutV(a), WithoutV(b);
    if S.HasPrefix(x, "0.0.0-") && S.HasPrefix(y, "0.0.0-") {
      if |x| < 20 || |y| < 20 {
        return None;
      }
      var order := CompareBytes(x[6..20], y[6..20]);
      return Some(order);
    }
    var order := CompareParts(Parts(x), Parts(y));
    return Some(order);
  }

  method CompareParts(aParts: seq<string>, bParts: seq<string>) returns (c: int)
    ensures c == Cmp(Numbers(aParts), Numbers(bParts), 0)
  {
    var maxLen := if |bParts| > |aParts| then |bParts| else |aParts|;
    ghost var xs, ys := Numbers(aParts), Numbers(bParts);
    for i := 0 to maxLen
      invariant Cmp(xs, ys, 0) == Cmp(xs, ys, i)
    {
      var aNum, bNum := 0, 0;
      if i < |aParts| {
        aNum := Number(aParts[i]);
      }
      if i < |bParts| {
        bNum := Number(bParts[i]);
      }
      if aNum > bNum {
        return 1;
      } else if aNum < bNum {
        return -1;
      }
    }
    return 0;
  }

  /**
    Swapping the arguments negates the comparison, and every version is equal to itself unless it is
    a short pseudo-version.
  */
  lemma {:induction false} CompareIsAntisymmetric(a: string, b: string)
    ensures Compare(a, b).None? <==> Compare(b, a).None?
    ensures Compare(a, b).Some? ==> Compare(b, a) == Some(-Compare(a, b).value)
    ensures Compare(a, a) == if Pseudo(a) && !Long(a) then None else Some(0)
  {
    CmpFlips(Nums(a), Nums(b), 0);
    CmpSame(Nums(a), Nums(a), 0);
    if Long(a) {
      CmpSame(Stamp(a), Stamp(a), 0);
      if Long(b) {
        CmpFlips(Stamp(a), Stamp(b), 0);
      }
    }
  }

  /** A leading `v` does not count. */
  lemma {:induction false} LeadingVIsIgnored(a: string, b: string)
    requires a == "" || a[0] != 'v'
    ensures Compare("v" + a, b) == Compare(a, b) && Compare(b, "v" + a) == Compare(b, a)
  {
    var va := "v" + a;
    assert va[..1] == "v" && va[1..] == a;
    assert WithoutV(a) == a by {
      assert a != "" ==> a[..1][0] == a[0];
    }
  }

  /**
    Comparing two pseudo-versions panics exactly when less than fourteen characters follow the `0.0.0-` of one;
    no other comparison does.
  */
  lemma {:induction false} ComparePanicsIff(a: string, b: string)
    requires (a == "" || a[0] != 'v') && (b == "" || b[0] != 'v')
    ensures Compare(a, b) == None <==> "0.0.0-" <= a && "0.0.0-" <= b && (|a| < 6 + 14 || |b| < 6 + 14)
  {
    PlainIsWhole(a);
    PlainIsWhole(b);
  }

  lemma {:induction false} PlainIsWhole(a: string)
    requires a == "" || a[0] != 'v'
    ensures WithoutV(a) == a && (Pseudo(a) <==> "0.0.0-" <= a)
  {
    assert a != "" ==> a[..1][0] == a[0];
    if |a| >= 6 {
      assert a == a[..6] + a[6..];
    }
  }

  // ---- When the comparison is an order ----

  /** No comparison among these versions panics. */
  predicate AllLong(vs: set<string>) {
    forall v :: v in vs && Pseudo(v) ==> Long(v)
  }

  predicate AtMost(a: string, b: string) {
    Compare(a, b).Some? && Compare(a, b).value <= 0
  }

  predicate Below(a: string, b: string) {
    Compare(a, b).Some? && Compare(a, b).value < 0
  }

  /** The signs of the two keys: the numbers, and for pseudo-versions the timestamps. */
  function ByNums(a: string, b: string): int {
    Cmp(Nums(a), Nums(b), 0)
  }

  function ByStamp(a: string, b: string): int {
    if Long(a) && Long(b) then Cmp(Stamp(a), Stamp(b), 0) else 0
  }

  /** A plain version lies, by numbers, between two pseudo-versions whose timestamps do not say so too. */
  predicate Clash(x: string, p: string, q: string) {
    && !Pseudo(x) && Pseudo(p) && Pseudo(q)
    && ByNums(q, x) <= 0 && ByNums(x, p) <= 0
    && (ByStamp(p, q) < 0 || (ByStamp(p, q) == 0 && ByNums(q, p) < 0))
  }

  predicate AnyClash(vs: set<string>) {
    exists x, p, q :: x in vs && p in vs && q in vs && Clash(x, p, q)
  }

  /** Any two versions compare, and the comparison is transitive. */
  predicate IsTotalPreorder(vs: set<string>) {
    && (forall a, b :: a in vs && b in vs ==> AtMost(a, b) || AtMost(b, a))
    && forall a, b, c :: a in vs && b in vs && c in vs && AtMost(a, b) && AtMost(b, c) ==> AtMost(a, c)
  }

  /** Comparison by numbers chains and flips. */
  lemma {:induction false} NumsChain(a: string, b: string, c: string)
    ensures ByNums(b, a) == -ByNums(a, b) && ByNums(c, b) == -ByNums(b, c) && ByNums(c, a) == -ByNums(a, c)
    ensures ByNums(a, b) <= 0 && ByNums(b, c) <= 0 ==> ByNums(a, c) <= 0
    ensures ByNums(a, b) <= 0 && ByNums(b, c) <= 0 ==> (ByNums(a, c) == 0 <==> ByNums(a, b) == 0 && ByNums(b, c) == 0)
  {
    CmpFlips(Nums(a), Nums(b), 0);
    CmpFlips(Nums(b), Nums(c), 0);
    CmpFlips(Nums(a), Nums(c), 0);
    if ByNums(a, b) <= 0 && ByNums(b, c) <= 0 {
      CmpChains(Nums(a), Nums(b), Nums(c));
    }
  }

  lemma {:induction false} StampChain(a: string, b: string, c: string)
    requires Long(a) && Long(b) && Long(c)
    ensures ByStamp(b, a) == -ByStamp(a, b) && ByStamp(c, b) == -ByStamp(b, c) && ByStamp(c, a) == -ByStamp(a, c)
    ensures ByStamp(a, b) <= 0 && ByStamp(b, c) <= 0 ==> ByStamp(a, c) <= 0
    ensures ByStamp(a, b) <= 0 && ByStamp(b, c) <= 0 ==>
              (ByStamp(a, c) == 0 <==> ByStamp(a, b) == 0 && ByStamp(b, c) == 0)
  {
    CmpFlips(Stamp(a), Stamp(b), 0);
    CmpFlips(Stamp(b), Stamp(c), 0);
    CmpFlips(Stamp(a), Stamp(c), 0);
    if ByStamp(a, b) <= 0 && ByStamp(b, c) <= 0 {
      CmpChains(Stamp(a), Stamp(b), Stamp(c));
    }
  }

  /** Three versions chain unless a plain one clashes with two pseudo-versions among them. */
  lemma {:induction false} ChainsOrClashes(a: string, b: string, c: string)
    requires (Pseudo(a) ==> Long(a)) && (Pseudo(b) ==> Long(b)) && (Pseudo(c) ==> Long(c))
    requires AtMost(a, b) && AtMost(b, c) && !AtMost(a, c)
    ensures Clash(a, b, c) || Clash(b, c, a) || Clash(c, a, b)
  {
    NumsChain(a, b, c);
    NumsChain(b, c, a);
    NumsChain(c, a, b);
    if Pseudo(a) && Pseudo(b) && Pseudo(c) {
      StampChain(a, b, c);
    } else if Pseudo(a) && Pseudo(b) {
      StampChain(a, b, a);
    } else if Pseudo(a) && Pseudo(c) {
      StampChain(a, c, a);
    } else if Pseudo(b) && Pseudo(c) {
      StampChain(b, c, b);
    }
  }

  lemma {:induction false} ClashBreaksChain(x: string, p: string, q: string)
    requires Long(p) && Long(q) && Clash(x, p, q)
    ensures (AtMost(q, x) && AtMost(x, p) && !AtMost(q, p))
         || (AtMost(p, q) && AtMost(q, x) && !AtMost(p, x))
         || (AtMost(x, p) && AtMost(p, q) && !AtMost(x, q))
  {
    NumsChain(q, x, p);
    NumsChain(x, p, q);
    StampChain(p, q, p);
  }

  /**
    The comparison totally preorders a set of versions exactly when no pseudo-version is short and
    none of them clash.
  */
  lemma {:induction false} IsTotalPreorderIffNoClash(vs: set<string>)
    ensures IsTotalPreorder(vs) <==> AllLong(vs) && !AnyClash(vs)
  {
    forall a, b | a in vs && b in vs ensures AllLong(vs) ==> AtMost(a, b) || AtMost(b, a) {
      CompareIsAntisymmetric(a, b);
    }
    if !AllLong(vs) {
      var p :| p in vs && Pseudo(p) && !Long(p);
      assert !AtMost(p, p);
    } else if AnyClash(vs) {
      var x, p, q :| x in vs && p in vs && q in vs && Clash(x, p, q);
      ClashBreaksChain(x, p, q);
    } else {
      forall a, b, c | a in vs && b in vs && c in vs && AtMost(a, b) && AtMost(b, c) ensures AtMost(a, c) {
        if !AtMost(a, c) {
          ChainsOrClashes(a, b, c);
          assert false;
        }
      }
    }
  }

  // ---- Keeping the highest ----

  /** What is kept after seeing these versions in order; None is a panic. */
  function Highest(vs: seq<string>): Option<string>
    requires vs != []
  {
    if |vs| == 1 then Some(vs[0])
    else
      var last, kept := vs[|vs| - 1], Highest(vs[..|vs| - 1]);
      if kept.None? then None
      else
        var c := Compare(last, kept.value);
        if c.None? then None else if c.value > 0 then Some(last) else kept
  }

  lemma {:induction false} HighestStep(vs: seq<string>, next: string, kept: string, c: int)
    requires vs != [] && Highest(vs) == Some(kept) && Compare(next, kept) == Some(c)
    ensures Highest(vs + [next]) == Some(if c > 0 then next else kept)
  {
    assert (vs + [next])[..|vs|] == vs;
  }

  /** A version that compares equal to the one kept does not replace it. */
  lemma {:induction false} EqualDoesNotReplace(vs: seq<string>, next: string)
    requires vs != [] && Highest(vs).Some? && Compare(next, Highest(vs).value) == Some(0)
    ensures Highest(vs + [next]) == Highest(vs)
  {
    HighestStep(vs, next, Highest(vs).value, 0);
  }

  datatype Requirement = Requirement(path: string, version: string)

  /** The versions required of one module, in the order of the walk. */
  function VersionsOf(reqs: seq<Requirement>, path: string): seq<string> {
    if reqs == [] then []
    else
      var r := reqs[|reqs| - 1];
      VersionsOf(reqs[..|reqs| - 1], path) + if r.path == path then [r.version] else []
  }

  /** The map holds the version kept of each module required so far. */
  ghost predicate Keeps(reqs: seq<Requirement>, m: map<string, string>) {
    forall path :: if path in m then VersionsOf(reqs, path) != [] && Highest(VersionsOf(reqs, path)) == Some(m[path])
                   else VersionsOf(reqs, path) == []
  }

  predicate PanicsOn(reqs: seq<Requirement>, path: string) {
    VersionsOf(reqs, path) != [] && Highest(VersionsOf(reqs, path)).None?
  }

  lemma {:induction false} PanicStays(reqs: seq<Requirement>, n: nat, path: string)
    requires n <= |reqs| && PanicsOn(reqs[..n], path)
    ensures PanicsOn(reqs, path)
    decreases |reqs|
  {
    if n < |reqs| {
      var front := reqs[..|reqs| - 1];
      assert front[..n] == reqs[..n];
      PanicStays(front, n, path);
      var vs := VersionsOf(front, path);
      assert (vs + [reqs[|reqs| - 1].version])[..|vs|] == vs && vs + [] == vs;
    } else {
      assert reqs[..n] == reqs;
    }
  }

  lemma {:induction false} KeepsStep(reqs: seq<Requirement>, r: Requirement, m: map<string, string>)
    requires Keeps(reqs, m)
    ensures r.path !in m ==> Keeps(reqs + [r], m[r.path := r.version])
    ensures r.path in m && Compare(r.version, m[r.path]).None? ==> PanicsOn(reqs + [r], r.path)
    ensures r.path in m && Compare(r.version, m[r.path]).Some? ==>
              Keeps(reqs + [r], if Compare(r.version, m[r.path]).value > 0 then m[r.path := r.version] else m)
  {
    assert (reqs + [r])[..|reqs|] == reqs;
    forall path
      ensures VersionsOf(reqs + [r], path) == VersionsOf(reqs, path) + if r.path == path then [r.version] else []
    {
    }
    var vs := VersionsOf(reqs, r.path);
    assert (vs + [r.version])[..|vs|] == vs;
    forall path | path != r.path ensures VersionsOf(reqs + [r], path) == VersionsOf(reqs, path) {
      assert VersionsOf(reqs, path) + [] == VersionsOf(reqs, path);
    }
  }

  /** The map of the highest version required of each module; None when a comparison panics. */
  method CollectRequires(reqs: seq<Requirement>) returns (highest: Option<map<string, string>>)
    ensures highest.Some? ==> Keeps(reqs, highest.value)
    ensures highest.None? <==> exists path :: PanicsOn(reqs, path)
  {
    var m: map<string, string> := map[];
    assert reqs[..0] == [];
    for i := 0 to |reqs|
      invariant Keeps(reqs[..i], m)
    {
      var r := reqs[i];
      assert reqs[..i + 1] == reqs[..i] + [r];
      KeepsStep(reqs[..i], r, m);
      if r.path in m {
        var c := CompareVersions(r.version, m[r.path]);
        if c.None? {
          PanicStays(reqs, i + 1, r.path);
          return None;
        }
        if c.value > 0 {
          m := m[r.path := r.version];
        }
      } else {
        m := m[r.path := r.version];
      }
    }
    assert reqs[..|reqs|] == reqs;
    return Some(m);
  }

  /**
    A plain version lies by numbers between two pseudo-versions, not level with both, and
    the timestamps order the two the other way, or not at all.
  */
  predicate Tangle(x: string, p: string, q: string) {
    && !Pseudo(x) && Pseudo(p) && Pseudo(q)
    && ByNums(q, x) <= 0 && ByNums(x, p) <= 0
    && ((ByStamp(p, q) < 0 && ByNums(q, p) < 0) || (ByStamp(p, q) == 0 && ByNums(q, x) < 0 && ByNums(x, p) < 0))
  }

  predicate AnyTangle(vs: set<string>) {
    exists x, p, q :: x in vs && p in vs && q in vs && Tangle(x, p, q)
  }

  /** The version kept is one of those seen, and no version seen is above it. */
  predicate KeepsMaximum(vs: seq<string>)
    requires vs != []
  {
    && Highest(vs).Some? && Highest(vs).value in vs
    && forall v :: v in vs ==> AtMost(v, Highest(vs).value)
  }

  /** Whatever list of these versions is seen, in whatever order, the one kept is a maximum. */
  ghost predicate AlwaysKeepsMaximum(vs: set<string>) {
    forall seen :: seen != [] && (forall v :: v in seen ==> v in vs) ==> KeepsMaximum(seen)
  }

  /** A version replaced by a higher one stays below it, unless a plain version is tangled with two pseudo-versions. */
  lemma {:induction false} ReplacedOrTangled(v: string, kept: string, next: string)
    requires (Pseudo(v) ==> Long(v)) && (Pseudo(kept) ==> Long(kept)) && (Pseudo(next) ==> Long(next))
    requires AtMost(v, kept) && Below(kept, next) && !AtMost(v, next)
    ensures Tangle(v, kept, next) || Tangle(next, v, kept) || Tangle(kept, next, v)
  {
    var a, b, c := v, kept, next;
    NumsChain(a, b, c);
    NumsChain(b, c, a);
    NumsChain(c, a, b);
    if Pseudo(a) && Pseudo(b) && Pseudo(c) {
      StampChain(a, b, c);
    } else if Pseudo(a) && Pseudo(b) {
      StampChain(a, b, a);
    } else if Pseudo(a) && Pseudo(c) {
      StampChain(a, c, a);
    } else if Pseudo(b) && Pseudo(c) {
      StampChain(b, c, b);
    }
  }

  /** A tangle gives three versions that go round in a circle. */
  lemma {:induction false} TangleGoesRound(x: string, p: string, q: string)
    returns (v: string, kept: string, next: string)
    requires Long(p) && Long(q) && Tangle(x, p, q)
    ensures (v, kept, next) == (x, p, q) || (v, kept, next) == (q, x, p) || (v, kept, next) == (p, q, x)
    ensures AtMost(v, kept) && Below(kept, next) && Below(next, v)
  {
    NumsChain(q, x, p);
    NumsChain(x, p, q);
    StampChain(p, q, p);
    if ByStamp(p, q) < 0 && ByNums(q, x) < 0 {
      v, kept, next := x, p, q;
    } else if ByStamp(p, q) < 0 {
      v, kept, next := q, x, p;
    } else {
      v, kept, next := p, q, x;
    }
  }

  lemma {:induction false} UntangledKeepsMaximum(all: set<string>, vs: seq<string>)
    requires vs != [] && AllLong(all) && !AnyTangle(all) && forall v :: v in vs ==> v in all
    ensures KeepsMaximum(vs)
  {
    Q.InSnoc(vs);
    var last, front := vs[|vs| - 1], vs[..|vs| - 1];
    CompareIsAntisymmetric(last, last);
    if |vs| > 1 {
      UntangledKeepsMaximum(all, front);
      var kept := Highest(front).value;
      CompareIsAntisymmetric(last, kept);
      if Compare(last, kept).value > 0 {
        forall v | v in front ensures AtMost(v, last) {
          CompareIsAntisymmetric(v, last);
          if !AtMost(v, last) {
            ReplacedOrTangled(v, kept, last);
            assert false;
          }
        }
      }
    } else {
      assert vs == [last];
    }
  }

  lemma {:induction false} RoundLosesMaximum(v: string, kept: string, next: string)
    requires AtMost(v, kept) && Below(kept, next) && Below(next, v)
    ensures !KeepsMaximum([kept, v, next])
  {
    var vs := [kept, v, next];
    assert vs[..2] == [kept, v] && [kept, v][..1] == [kept];
    CompareIsAntisymmetric(kept, next);
    CompareIsAntisymmetric(next, v);
    assert Highest([kept, v]) == Some(kept);
    assert Highest(vs) == Some(next);
    assert v == vs[1] && !AtMost(v, next);
  }

  lemma {:induction false} LostOnce(vs: set<string>, seen: seq<string>)
    requires seen != [] && (forall v :: v in seen ==> v in vs) && !KeepsMaximum(seen)
    ensures !AlwaysKeepsMaximum(vs)
  {
  }

  lemma {:induction false} TangledLosesMaximum(vs: set<string>, x: string, p: string, q: string)
    requires Long(p) && Long(q) && x in vs && p in vs && q in vs && Tangle(x, p, q)
    ensures !AlwaysKeepsMaximum(vs)
  {
    var v, kept, next := TangleGoesRound(x, p, q);
    assert v in vs && kept in vs && next in vs;
    RoundLosesMaximum(v, kept, next);
    LostOnce(vs, [kept, v, next]);
  }

  lemma {:induction false} LongWalkDoesNotPanic(vs: seq<string>)
    requires vs != [] && forall v :: v in vs && Pseudo(v) ==> Long(v)
    ensures Highest(vs).Some? && Highest(vs).value in vs
  {
    Q.InSnoc(vs);
    if |vs| > 1 {
      LongWalkDoesNotPanic(vs[..|vs| - 1]);
    }
  }

  lemma {:induction false} ShortVersionPanics(p: string)
    requires Pseudo(p) && !Long(p)
    ensures Highest([p, p]) == None
  {
    assert [p, p][..1] == [p];
    assert Highest([p]) == Some(p);
  }

  ghost predicate SomeWalkPanics(vs: set<string>) {
    exists seen: seq<string> :: seen != [] && (forall v :: v in seen ==> v in vs) && Highest(seen).None?
  }

  /**
    Some walk over the versions panics exactly when one of them reads as a pseudo-version too short
    for a timestamp.
  */
  lemma {:induction false} SomeWalkPanicsIffShort(vs: set<string>)
    ensures SomeWalkPanics(vs) <==> !AllLong(vs)
  {
    if AllLong(vs) {
      forall seen: seq<string> | seen != [] && forall v :: v in seen ==> v in vs ensures Highest(seen).Some? {
        LongWalkDoesNotPanic(seen);
      }
    } else {
      var p :| p in vs && Pseudo(p) && !Long(p);
      ShortVersionPanics(p);
      assert forall v :: v in [p, p] ==> v in vs;
    }
  }

  /**
    Every walk keeps a maximum exactly when no pseudo-version is short and no plain version is
    tangled with two pseudo-versions.
  */
  lemma {:induction false} KeepsMaximumIffUntangled(vs: set<string>)
    ensures AlwaysKeepsMaximum(vs) <==> AllLong(vs) && !AnyTangle(vs)
  {
    if !AllLong(vs) {
      var p :| p in vs && Pseudo(p) && !Long(p);
      ShortVersionPanics(p);
      assert forall v :: v in [p, p] ==> v in vs;
      assert !KeepsMaximum([p, p]);
    } else if !AnyTangle(vs) {
      forall seen: seq<string> | seen != [] && forall v :: v in seen ==> v in vs ensures KeepsMaximum(seen) {
        UntangledKeepsMaximum(vs, seen);
      }
    } else {
      var x, p, q :| x in vs && p in vs && q in vs && Tangle(x, p, q);
      TangledLosesMaximum(vs, x, p, q);
    }
  }

  /** Two walks over the same versions keep versions that compare equal. */
  lemma {:induction false} WalkOrderDoesNotMatter(all: set<string>, vs: seq<string>, ws: seq<string>)
    requires vs != [] && ws != [] && AllLong(all) && !AnyTangle(all)
    requires forall v :: v in vs <==> v in ws
    requires forall v :: v in vs ==> v in all
    ensures Highest(vs).Some? && Highest(ws).Some? && Compare(Highest(vs).value, Highest(ws).value) == Some(0)
  {
    UntangledKeepsMaximum(all, vs);
    UntangledKeepsMaximum(all, ws);
    CompareIsAntisymmetric(Highest(vs).value, Highest(ws).value);
  }

  /** The two walks keep versions that compare equal. */
  predicate KeepEqual(vs: seq<string>, ws: seq<string>)
    requires vs != [] && ws != []
  {
    Highest(vs).Some? && Highest(ws).Some? && Compare(Highest(vs).value, Highest(ws).value) == Some(0)
  }

  /** Whatever list of these versions is walked, in whatever two orders, equal versions are kept. */
  ghost predicate OrderNeverMatters(all: set<string>) {
    forall vs, ws :: vs != [] && (forall v :: v in vs ==> v in all) && multiset(vs) == multiset(ws) && ws != [] ==>
             KeepEqual(vs, ws)
  }

  lemma {:induction false} DiffersOnce(all: set<string>, vs: seq<string>, ws: seq<string>)
    requires vs != [] && ws != [] && (forall v :: v in vs ==> v in all) && multiset(vs) == multiset(ws)
             && !KeepEqual(vs, ws)
    ensures !OrderNeverMatters(all)
  {
  }

  /** A circle walked once up and once down keeps versions that differ. */
  lemma {:induction false} RoundKeepsUnequal(v: string, kept: string, next: string)
    requires AtMost(v, kept) && Below(kept, next) && Below(next, v)
    ensures !KeepEqual([kept, v, next], [next, v, kept])
  {
    CompareIsAntisymmetric(kept, next);
    CompareIsAntisymmetric(next, v);
    CompareIsAntisymmetric(v, kept);
    assert [kept] + [v] == [kept, v] && [kept, v] + [next] == [kept, v, next];
    assert [next] + [v] == [next, v] && [next, v] + [kept] == [next, v, kept];
    HighestStep([kept], v, kept, Compare(v, kept).value);
    HighestStep([kept, v], next, kept, Compare(next, kept).value);
    HighestStep([next], v, next, Compare(v, next).value);
    HighestStep([next, v], kept, v, Compare(kept, v).value);
  }

  lemma {:induction false} TangleMatters(all: set<string>, x: string, p: string, q: string)
    requires Long(p) && Long(q) && x in all && p in all && q in all && Tangle(x, p, q)
    ensures !OrderNeverMatters(all)
  {
    var v, kept, next := TangleGoesRound(x, p, q);
    RoundKeepsUnequal(v, kept, next);
    assert v in all && kept in all && next in all;
    SameThree(v, kept, next);
    DiffersOnce(all, [kept, v, next], [next, v, kept]);
  }

  lemma {:induction false} SameThree(v: string, kept: string, next: string)
    ensures multiset([kept, v, next]) == multiset([next, v, kept])
  {
    assert [kept, v, next] == [kept] + [v] + [next] && [next, v, kept] == [next] + [v] + [kept];
  }

  /**
    The walk order never matters exactly when no pseudo-version is short and no plain version is
    tangled with two pseudo-versions.
  */
  lemma {:induction false} OrderNeverMattersIffUntangled(all: set<string>)
    ensures OrderNeverMatters(all) <==> AllLong(all) && !AnyTangle(all)
  {
    if !AllLong(all) {
      var p :| p in all && Pseudo(p) && !Long(p);
      ShortVersionPanics(p);
      DiffersOnce(all, [p, p], [p, p]);
    } else if AnyTangle(all) {
      var x, p, q :| x in all && p in all && q in all && Tangle(x, p, q);
      TangleMatters(all, x, p, q);
    } else {
      forall vs: seq<string>, ws: seq<string> |
          vs != [] && (forall v :: v in vs ==> v in all) && multiset(vs) == multiset(ws) && ws != []
        ensures KeepEqual(vs, ws)
      {
        Q.SameMembers(vs, ws);
        WalkOrderDoesNotMatter(all, vs, ws);
      }
    }
  }

  // ---- Pseudo-versions of the usual shape, and plain versions printed from numbers ----

  predicate DotFree(s: string) {
    S.Free(s, '.')
  }

  /** A pseudo-version with no further dot counts as 0.0.0. */
  lemma {:induction false} PseudoCountsAsZero(p: string)
    requires Pseudo(p) && DotFree(WithoutV(p)[6..])
    ensures Nums(p) == [0, 0, 0]
  {
    var w := WithoutV(p);
    var tail := w[5..];
    assert tail[0] == w[5] && w[5] == "0.0.0-"[5];
    assert w[4] == "0.0.0-"[4] && w[3] == "0.0.0-"[3] && w[2] == "0.0.0-"[2] && w[1] == "0.0.0-"[1]
           && w[0] == "0.0.0-"[0];
    var third := w[4..];
    assert DotFree(third) by {
      assert forall i :: 2 <= i < |third| ==> third[i] == w[6..][i - 2];
    }
    assert w == "0" + "." + ("0" + "." + third);
    S.PiecesOfPair("0", "0" + "." + third, '.');
    S.PiecesOfPair("0", third, '.');
    S.FreePiece(third, '.');
    assert Release(third) == "0" by {
      assert third[1..] == tail;
      assert Release(tail) == "";
    }
    assert Release("0") == "0" by {
      assert "0"[1..] == "";
    }
    assert Value("0", 0) == 0 by {
      assert "0"[1..] == "";
    }
    assert Number("0") == 0 && Number(third) == 0;
  }

  /** Every pseudo-version here has its timestamp, and no dot after it. */
  predicate Usual(vs: set<string>) {
    forall p :: p in vs && Pseudo(p) ==> Long(p) && DotFree(WithoutV(p)[6..])
  }

  /** The plain version has no number but zeros. */
  predicate AllZero(x: string) {
    !Pseudo(x) && forall i :: 0 <= i < |Nums(x)| ==> Nums(x)[i] == 0
  }

  lemma {:induction false} ZeroIffLevel(x: string, p: string)
    requires Nums(p) == [0, 0, 0]
    ensures ByNums(p, x) <= 0 && ByNums(x, p) <= 0 && ByNums(p, x) == -ByNums(x, p) <==>
            forall i :: 0 <= i < |Nums(x)| ==> Nums(x)[i] == 0
  {
    CmpFlips(Nums(x), Nums(p), 0);
    CmpIsEqual(Nums(x), Nums(p), 0);
    if ByNums(x, p) == 0 {
      forall i | 0 <= i < |Nums(x)| ensures Nums(x)[i] == 0 {
        assert At(Nums(x), i) == At(Nums(p), i);
      }
    }
  }

  lemma {:induction false} UsualClash(x: string, p: string, q: string)
    requires Long(p) && Long(q) && Pseudo(p) && Pseudo(q)
    requires Nums(p) == [0, 0, 0] && Nums(q) == [0, 0, 0]
    ensures Clash(x, p, q) <==> AllZero(x) && ByStamp(p, q) < 0
    ensures !Tangle(x, p, q)
  {
    NumsChain(p, q, x);
    NumsChain(q, x, p);
    CmpSame(Nums(p), Nums(q), 0);
    ZeroIffLevel(x, p);
  }

  /** A plain 0.0.0 beside two pseudo-versions of different times. */
  predicate ZeroBesideTwoTimes(vs: set<string>) {
    exists x, p, q :: x in vs && p in vs && q in vs && AllZero(x) && Pseudo(p) && Pseudo(q) && ByStamp(p, q) < 0
  }

  /**
    With pseudo-versions of the usual shape the comparison is a total preorder exactly when no
    plain all-zero version stands beside two pseudo-versions of different times. Even then
    every walk keeps a maximum.
  */
  lemma {:induction false} UsualVersions(vs: set<string>)
    requires Usual(vs)
    ensures IsTotalPreorder(vs) <==> !ZeroBesideTwoTimes(vs)
    ensures AlwaysKeepsMaximum(vs)
  {
    forall x, p, q | x in vs && p in vs && q in vs && Pseudo(p) && Pseudo(q)
      ensures Clash(x, p, q) <==> AllZero(x) && ByStamp(p, q) < 0
      ensures !Tangle(x, p, q)
    {
      PseudoCountsAsZero(p);
      PseudoCountsAsZero(q);
      UsualClash(x, p, q);
    }
    IsTotalPreorderIffNoClash(vs);
    KeepsMaximumIffUntangled(vs);
  }

  function Decimal(n: nat): string {
    if n < 10 then [('0' as int + n) as char] else Decimal(n / 10) + [('0' as int + n % 10) as char]
  }

  predicate AllDigits(s: string) {
    forall i :: 0 <= i < |s| ==> IsDigit(s[i])
  }

  lemma {:induction false} ValueOfAppend(s: string, c: char, acc: nat)
    requires AllDigits(s) && IsDigit(c)
    ensures Value(s + [c], acc) == 10 * Value(s, acc) + (c as int - '0' as int)
  {
    if s == "" {
      assert (s + [c])[1..] == "";
    } else {
      assert (s + [c])[1..] == s[1..] + [c];
      ValueOfAppend(s[1..], c, 10 * acc + (s[0] as int - '0' as int));
    }
  }

  lemma {:induction false} DecimalReads(n: nat)
    ensures Decimal(n) != "" && AllDigits(Decimal(n)) && Value(Decimal(n), 0) == n
  {
    var c := ('0' as int + n % 10) as char;
    if n >= 10 {
      DecimalReads(n / 10);
      ValueOfAppend(Decimal(n / 10), c, 0);
    } else {
      assert Decimal(n) == "" + [c];
      ValueOfAppend("", c, 0);
    }
  }

  lemma {:induction false} DigitsAreReleased(s: string)
    requires AllDigits(s)
    ensures Release(s) == s
  {
    if s != "" {
      DigitsAreReleased(s[1..]);
    }
  }

  /** A number as it is read: one that does not fit is lost, so 0. */
  function AsRead(n: nat): nat {
    if n <= MAX_INT then n else 0
  }

  function AllAsRead(ns: seq<nat>): (rs: seq<nat>)
    ensures |rs| == |ns| && forall i :: 0 <= i < |ns| ==> rs[i] == AsRead(ns[i])
  {
    seq(|ns|, i requires 0 <= i < |ns| => AsRead(ns[i]))
  }

  lemma {:induction false} NumberOfDecimal(n: nat)
    ensures Number(Decimal(n)) == AsRead(n) && DotFree(Decimal(n))
  {
    DecimalReads(n);
    DigitsAreReleased(Decimal(n));
    assert IsDigit(Decimal(n)[0]);
  }

  /** The text begins with no digit. */
  predicate NoDigitFirst(s: string) {
    s == "" || !('0' <= s[0] <= '9')
  }

  lemma {:induction false} ValueOfDigits(digits: string, rest: string, acc: nat)
    requires AllDigits(digits) && NoDigitFirst(rest)
    ensures Value(digits + rest, acc) == Value(digits, acc)
  {
    if digits == "" {
      assert digits + rest == rest;
    } else {
      assert (digits + rest)[1..] == digits[1..] + rest;
      ValueOfDigits(digits[1..], rest, 10 * acc + (digits[0] as int - '0' as int));
    }
  }

  lemma {:induction false} ReleaseOfFront(front: string, rest: string)
    requires S.Free(front, '-') && S.Free(front, '+')
    ensures Release(front + rest) == front + Release(rest)
    ensures NoDigitFirst(rest) ==> NoDigitFirst(Release(rest))
  {
    if front == "" {
      assert front + rest == rest && front + Release(rest) == Release(rest);
    } else {
      assert (front + rest)[1..] == front[1..] + rest;
      ReleaseOfFront(front[1..], rest);
      assert front == [front[0]] + front[1..];
    }
  }

  predicate SkippedBlanks(s: string) {
    S.Blank(S.IsSpace, s) && S.Free(s, '\n')
  }

  lemma {:induction false} SkipDropsBlanks(blanks: string, rest: string)
    requires SkippedBlanks(blanks) && (rest == "" || !S.IsSpace(rest[0]))
    ensures SkipBlanks(blanks + rest) == rest
  {
    if blanks == "" {
      assert blanks + rest == rest;
    } else {
      assert (blanks + rest)[1..] == blanks[1..] + rest;
      SkipDropsBlanks(blanks[1..], rest);
    }
  }

  lemma {:induction false} NoNumberReads(blanks: string, rest: string)
    requires SkippedBlanks(blanks) && NoDigitFirst(rest) && (rest == "" || !S.IsSpace(rest[0]))
    ensures Number(blanks + rest) == 0
  {
    ReleaseOfFront(blanks, rest);
    SkipDropsBlanks(blanks, Release(rest));
  }

  /** A part counts as the number it begins with, after blanks and whatever follows; without one it counts as 0. */
  lemma {:induction false} NumberReads(blanks: string, n: nat, rest: string)
    requires SkippedBlanks(blanks) && NoDigitFirst(rest)
    ensures Number(blanks + Decimal(n) + rest) == AsRead(n)
    ensures rest == "" || !S.IsSpace(rest[0]) ==> Number(blanks + rest) == 0
  {
    var digits := Decimal(n);
    DecimalReads(n);
    ReleaseOfFront(blanks + digits, rest);
    Q.Associates(blanks, digits, Release(rest));
    assert (digits + Release(rest))[0] == digits[0];
    SkipDropsBlanks(blanks, digits + Release(rest));
    ValueOfDigits(digits, Release(rest), 0);
    if rest == "" || !S.IsSpace(rest[0]) {
      NoNumberReads(blanks, rest);
    }
  }

  /** The numbers in decimal, joined by dots. */
  function Dotted(ns: seq<nat>): string
    requires ns != []
  {
    if |ns| == 1 then Decimal(ns[0]) else Decimal(ns[0]) + "." + Dotted(ns[1..])
  }

  lemma {:induction false} NumbersCons(part: string, ps: seq<string>)
    ensures Numbers([part] + ps) == [Number(part)] + Numbers(ps)
  {
  }

  lemma {:induction false} AsReadCons(n: nat, ns: seq<nat>)
    ensures AllAsRead([n] + ns) == [AsRead(n)] + AllAsRead(ns)
  {
  }

  lemma {:induction false} NumbersOfDotted(ns: seq<nat>)
    requires ns != []
    ensures Numbers(Parts(Dotted(ns))) == AllAsRead(ns)
  {
    NumberOfDecimal(ns[0]);
    if |ns| == 1 {
      S.FreePiece(Decimal(ns[0]), '.');
    } else {
      var rest := Parts(Dotted(ns[1..]));
      NumbersOfDotted(ns[1..]);
      S.PiecesOfPair(Decimal(ns[0]), Dotted(ns[1..]), '.');
      assert Parts(Dotted(ns)) == [Decimal(ns[0])] + rest;
      NumbersCons(Decimal(ns[0]), rest);
      AsReadCons(ns[0], ns[1..]);
      assert ns == [ns[0]] + ns[1..];
    }
  }

  lemma {:induction false} DottedHasNoDash(ns: seq<nat>)
    requires ns != []
    ensures forall i :: 0 <= i < |Dotted(ns)| ==> IsDigit(Dotted(ns)[i]) || Dotted(ns)[i] == '.'
  {
    DecimalReads(ns[0]);
    if |ns| > 1 {
      DottedHasNoDash(ns[1..]);
    }
  }

  lemma {:induction false} PlainVersion(ns: seq<nat>)
    requires ns != []
    ensures var v := "v" + Dotted(ns); !Pseudo(v) && Nums(v) == AllAsRead(ns)
  {
    var v := "v" + Dotted(ns);
    assert v[..1] == "v" && v[1..] == Dotted(ns);
    DottedHasNoDash(ns);
    NumbersOfDotted(ns);
    if |Dotted(ns)| >= 6 {
      assert Dotted(ns)[..6][5] == Dotted(ns)[5];
      assert "0.0.0-"[5] == '-';
    }
  }

  /**
    Versions printed from any numbers compare as the numbers do at the first place they differ,
    missing ones being zero, and so those above 2^63 - 1.
  */
  lemma {:induction false} PlainVersionsCompareByNumbers(xs: seq<nat>, ys: seq<nat>)
    requires xs != [] && ys != []
    ensures var c, ms, ns := Compare("v" + Dotted(xs), "v" + Dotted(ys)), AllAsRead(xs), AllAsRead(ys);
            c.Some? && if c.value == 0 then forall i: nat :: At(ms, i) == At(ns, i)
                       else exists k: nat :: DifferAt(ms, ns, k) && (c.value > 0 <==> At(ms, k) > At(ns, k))
  {
    PlainVersion(xs);
    PlainVersion(ys);
    CmpIsEqual(AllAsRead(xs), AllAsRead(ys), 0);
  }

  predicate IsMark(m: char) {
    m == '-' || m == '+'
  }

  predicate SameReleases(ps: seq<string>, qs: seq<string>) {
    |ps| == |qs| && forall i :: 0 <= i < |ps| ==> Release(ps[i]) == Release(qs[i])
  }

  lemma {:induction false} ReleasesCons(c: char, ps: seq<string>, qs: seq<string>)
    requires SameReleases(ps, qs) && ps != []
    ensures SameReleases([[c] + ps[0]] + ps[1..], [[c] + qs[0]] + qs[1..])
  {
    assert ([c] + ps[0])[1..] == ps[0] && ([c] + qs[0])[1..] == qs[0];
  }

  lemma {:induction false} ReleasesAfterDot(ps: seq<string>, qs: seq<string>)
    requires SameReleases(ps, qs)
    ensures SameReleases([""] + ps, [""] + qs)
  {
  }

  lemma {:induction false} MarkCutsOff(mark: char, t: string)
    requires IsMark(mark)
    ensures SameReleases(Parts([mark] + t), [""] + Parts(t)[1..])
  {
    var u := [mark] + t;
    assert u[0] == mark && u[1..] == t;
    assert Release([mark] + Parts(t)[0]) == "" == Release("");
    assert Parts(u) == [[mark] + Parts(t)[0]] + Parts(t)[1..];
  }

  /** A suffix joins the last part, where it is cut off again, and only its later parts stay. */
  lemma {:induction false} SuffixParts(s: string, mark: char, t: string)
    requires IsMark(mark)
    ensures SameReleases(Parts(s + [mark] + t), Parts(s) + Parts(t)[1..])
  {
    var u, later := s + [mark] + t, Parts(t)[1..];
    if s == "" {
      assert u == [mark] + t && Parts(s) == [""];
      MarkCutsOff(mark, t);
    } else {
      var rest, rest' := Parts(s[1..]), Parts(u[1..]);
      assert u[0] == s[0] && u[1..] == s[1..] + [mark] + t;
      SuffixParts(s[1..], mark, t);
      if s[0] == '.' {
        Q.Associates([""], rest, later);
        ReleasesAfterDot(rest', rest + later);
      } else {
        ReleasesCons(s[0], rest', rest + later);
        assert (rest + later)[0] == rest[0] && (rest + later)[1..] == rest[1..] + later;
        Q.Associates([[s[0]] + rest[0]], rest[1..], later);
      }
    }
  }

  /** The numbers that a suffix adds: those after its dots. */
  function SuffixNums(suffix: string): seq<nat> {
    Numbers(Parts(suffix)[1..])
  }

  lemma {:induction false} SuffixAddsNums(v: string, mark: char, suffix: string)
    requires IsMark(mark)
    ensures Nums(v + [mark] + suffix) == Nums(v) + SuffixNums(suffix)
  {
    var u := v + [mark] + suffix;
    assert WithoutV(u) == WithoutV(v) + [mark] + suffix by {
      assert u[..1] == [u[0]];
      if v != "" {
        assert u[0] == v[0] && v[..1] == [v[0]];
        assert u[1..] == v[1..] + [mark] + suffix;
      } else {
        assert u[0] == mark;
      }
    }
    SuffixParts(WithoutV(v), mark, suffix);
  }

  lemma {:induction false} CmpOfLonger(xs: seq<nat>, ys: seq<nat>)
    ensures Cmp(xs + ys, xs, 0) >= 0
    ensures Cmp(xs + ys, xs, 0) == 0 <==> forall i :: 0 <= i < |ys| ==> ys[i] == 0
  {
    assert forall i: nat :: At(xs + ys, i) == if i < |xs| then At(xs, i) else At(ys, i - |xs|);
    CmpIsEqual(xs + ys, xs, 0);
    if forall i :: 0 <= i < |ys| ==> ys[i] == 0 {
      CmpSame(xs + ys, xs, 0);
    } else {
      var i :| 0 <= i < |ys| && ys[i] != 0;
      assert At(xs + ys, |xs| + i) == ys[i] && At(xs, |xs| + i) == 0;
    }
  }

  /**
    A pre-release or build suffix does not count, exactly when no part after a dot in it is
    a number but zero: coarser than section 11 of Semantic Versioning 2.0.0, and where it
    counts it raises the version.
  */
  lemma {:induction false} SuffixCountsIffNumbered(v: string, mark: char, suffix: string)
    requires IsMark(mark) && !Pseudo(v)
    ensures var c := Compare(v + [mark] + suffix, v);
            && c.Some? && c.value >= 0
            && (c.value == 0 <==> forall i :: 0 <= i < |SuffixNums(suffix)| ==> SuffixNums(suffix)[i] == 0)
  {
    SuffixAddsNums(v, mark, suffix);
    CmpOfLonger(Nums(v), SuffixNums(suffix));
  }

  // ---- Timestamps ----

  function Sign(x: int): int {
    if x > 0 then 1 else if x < 0 then -1 else 0
  }

  lemma {:induction false} ValueKeepsLead(a: string, b: string, low: nat, high: nat)
    requires |a| == |b| && AllDigits(a) && AllDigits(b) && low < high
    ensures Value(a, low) < Value(b, high)
  {
    if a != "" {
      ValueKeepsLead(a[1..], b[1..], 10 * low + (a[0] as int - '0' as int), 10 * high + (b[0] as int - '0' as int));
    }
  }

  lemma {:induction false} DigitsCompareByValue(a: string, b: string, i: nat, acc: nat)
    requires |a| == |b| && i <= |a| && AllDigits(a) && AllDigits(b)
    ensures Cmp(Codes(a), Codes(b), i) == Sign(Value(a[i..], acc) - Value(b[i..], acc))
    decreases |a| - i
  {
    if i < |a| {
      var x, y := a[i..], b[i..];
      assert x[0] == a[i] && y[0] == b[i] && x[1..] == a[i + 1..] && y[1..] == b[i + 1..];
      var accA, accB := 10 * acc + (a[i] as int - '0' as int), 10 * acc + (b[i] as int - '0' as int);
      if a[i] == b[i] {
        DigitsCompareByValue(a, b, i + 1, accA);
      } else if a[i] < b[i] {
        ValueKeepsLead(x[1..], y[1..], accA, accB);
      } else {
        ValueKeepsLead(y[1..], x[1..], accB, accA);
      }
    }
  }

  function PseudoVersion(stamp: string, hash: string): string {
    "v0.0.0-" + stamp + "-" + hash
  }

  lemma {:induction false} StampOfPseudo(stamp: string, hash: string)
    requires |stamp| == 14
    ensures var v := PseudoVersion(stamp, hash); Pseudo(v) && Long(v) && Stamp(v) == Codes(stamp)
  {
    var v := PseudoVersion(stamp, hash);
    assert v[..1] == "v" && v[1..] == "0.0.0-" + stamp + "-" + hash;
    assert WithoutV(v)[..6] == "0.0.0-" && WithoutV(v)[6..20] == stamp;
  }

  /** Pseudo-versions compare as their timestamps read as numbers, whatever their hashes. */
  lemma {:induction false} PseudoVersionsCompareByTime(s: string, t: string, hash: string, hash': string)
    requires |s| == |t| == 14 && AllDigits(s) && AllDigits(t)
    ensures Compare(PseudoVersion(s, hash), PseudoVersion(t, hash')) == Some(Sign(Value(s, 0) - Value(t, 0)))
  {
    StampOfPseudo(s, hash);
    StampOfPseudo(t, hash');
    DigitsCompareByValue(s, t, 0, 0);
    assert s[0..] == s && t[0..] == t;
  }

  lemma {:induction false} StampHasNoDot(stamp: string, hash: string)
    requires |stamp| == 14 && AllDigits(stamp) && DotFree(hash)
    ensures DotFree(WithoutV(PseudoVersion(stamp, hash))[6..])
  {
    var v := PseudoVersion(stamp, hash);
    assert v[..1] == "v" && v[1..] == "0.0.0-" + stamp + "-" + hash;
    assert WithoutV(v)[6..] == stamp + "-" + hash;
  }

  lemma {:induction false} TwoTimes(s: string, t: string, hash: string)
    requires |s| == |t| == 14 && AllDigits(s) && AllDigits(t) && DotFree(hash) && Value(s, 0) < Value(t, 0)
    ensures var p, q := PseudoVersion(s, hash), PseudoVersion(t, hash);
            && Pseudo(p) && Pseudo(q) && Long(p) && Long(q) && ByStamp(p, q) < 0
            && DotFree(WithoutV(p)[6..]) && DotFree(WithoutV(q)[6..])
  {
    StampHasNoDot(s, hash);
    StampHasNoDot(t, hash);
    StampOfPseudo(s, hash);
    StampOfPseudo(t, hash);
    DigitsCompareByValue(s, t, 0, 0);
    assert s[0..] == s && t[0..] == t;
  }

  /** For example 0.0.0 with any two pseudo-versions of different times is not in order. */
  lemma {:induction false} ZeroBesideTwoTimesExample(s: string, t: string, hash: string)
    requires |s| == |t| == 14 && AllDigits(s) && AllDigits(t) && DotFree(hash) && Value(s, 0) < Value(t, 0)
    ensures !IsTotalPreorder({"v" + Dotted([0, 0, 0]), PseudoVersion(s, hash), PseudoVersion(t, hash)})
  {
    var x, p, q := "v" + Dotted([0, 0, 0]), PseudoVersion(s, hash), PseudoVersion(t, hash);
    PlainVersion([0, 0, 0]);
    assert AllAsRead([0, 0, 0]) == [0, 0, 0];
    TwoTimes(s, t, hash);
    var vs := {x, p, q};
    assert x in vs && p in vs && q in vs && AllZero(x);
    UsualVersions(vs);
  }
}
