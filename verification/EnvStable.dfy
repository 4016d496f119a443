/**
  The environment cache over fixed sources: when a cached lookup answers as an uncached one
  (common/env.go:192-240).
*/
module EnvStable {
  import opened Options
  import opened EnvLookup
  import S = Strings

  /** The value of the first line at or after i that assigns the key. */
  function FirstValue(ps: seq<Option<Pair>>, i: nat, key: string): (v: Option<string>)
    requires i <= |ps|
    decreases |ps| - i
  {
    if i == |ps| then None
    else
      var p := ps[i];
      if p.Some? && p.value.key == key then Some(p.value.value) else FirstValue(ps, i + 1, key)
  }

  /** The value of the last of the first n lines that assigns the key. */
  function LastValue(ps: seq<Option<Pair>>, n: nat, key: string): Option<string>
    requires n <= |ps|
  {
    if n == 0 then None
    else
      var p := ps[n - 1];
      if p.Some? && p.value.key == key then Some(p.value.value) else LastValue(ps, n - 1, key)
  }

  /** What LookupEnv answers when there is no cache. */
  function Uncached(env: map<string, string>, file: Option<seq<string>>, name: string): Answer {
    var key := S.Upper(name);
    if key in env then Answer(S.TrimSpace(env[key]), true)
    else if file.None? then Answer("", false)
    else
      match FirstValue(Parsed(file.value), 0, key)
      case Some(v) => Answer(v, true)
      case None => Answer("", false)
  }

  /** Parsed keys are upper-cased. */
  predicate Normal(ps: seq<Option<Pair>>) {
    forall i :: 0 <= i < |ps| && ps[i].Some? ==> S.Upper(ps[i].value.key) == ps[i].value.key
  }

  lemma {:induction false} ParsedIsNormal(lines: seq<string>)
    ensures Normal(Parsed(lines))
  {
    forall i | 0 <= i < |lines| && Parsed(lines)[i].Some?
      ensures S.Upper(Parsed(lines)[i].value.key) == Parsed(lines)[i].value.key
    {
      assert Parsed(lines)[i] == ParseLine(lines[i]);
    }
  }

  predicate Assigns(p: Option<Pair>, key: string) {
    p.Some? && p.value.key == key
  }

  /** None of the first n lines assigns the key. */
  predicate NoneBefore(ps: seq<Option<Pair>>, n: nat, key: string)
    requires n <= |ps|
  {
    forall i :: 0 <= i < n ==> !Assigns(ps[i], key)
  }

  /**
    A scan can end after n lines: at the end of the file, or just after the first line of a
    key that the process environment does not hold.
  */
  predicate EndsAt(env: map<string, string>, ps: seq<Option<Pair>>, n: nat) {
    || n == |ps|
    || (0 < n < |ps| && ps[n - 1].Some?
        && ps[n - 1].value.key !in env && NoneBefore(ps, n - 1, ps[n - 1].value.key))
  }

  /** Up to every place where a scan can end, the last line of each key gives what its first line gives. */
  ghost predicate Stable(env: map<string, string>, ps: seq<Option<Pair>>) {
    forall n, key :: 0 <= n <= |ps| && EndsAt(env, ps, n) && key !in env && LastValue(ps, n, key).Some?
      ==> LastValue(ps, n, key) == FirstValue(ps, 0, key)
  }

  /** Every call reads these sources, and the clock does not go back. */
  ghost predicate FixedRun(env: map<string, string>, file: Option<seq<string>>, calls: seq<Call>) {
    && (forall i :: 0 <= i < |calls| ==> calls[i].env == env && calls[i].file == file)
    && forall i, j :: 0 <= i <= j < |calls| ==> calls[i].now <= calls[j].now
  }

  /** Every call of the run answers as it would without a cache. */
  predicate Transparent(ttl: int, env: map<string, string>, file: Option<seq<string>>, calls: seq<Call>) {
    forall i :: 0 <= i < |calls| ==> AnswerAt(ttl, calls, i) == Uncached(env, file, calls[i].key)
  }

  // ---- A scan ----

  /** The scan answers as the uncached lookup, whatever is cached or evicted. */
  lemma {:induction false} ScanAnswers(ps: seq<Option<Pair>>, i: nat, key: string, now: int,
              evict: nat -> set<string>, cache: Cache)
    requires i <= |ps|
    ensures Scan(ps, i, key, now, evict, cache).0
         == match FirstValue(ps, i, key) case Some(v) => Answer(v, true) case None => Answer("", false)
    decreases |ps| - i
  {
    if i < |ps| {
      var p := ps[i];
      if p.None? {
        ScanAnswers(ps, i + 1, key, now, evict, cache);
      } else if p.value.key != key {
        ScanAnswers(ps, i + 1, key, now, evict, Put(cache, p.value.key, Entry(now, p.value.value), evict(i)));
      }
    }
  }

  /** How many lines a scan for the key reads. */
  function ScanEnd(ps: seq<Option<Pair>>, i: nat, key: string): (n: nat)
    requires i <= |ps|
    ensures i <= n <= |ps|
    decreases |ps| - i
  {
    if i == |ps| then i
    else if Assigns(ps[i], key) then i + 1
    else ScanEnd(ps, i + 1, key)
  }

  lemma {:induction false} ScanEndsAt(env: map<string, string>, ps: seq<Option<Pair>>, i: nat, key: string)
    requires i <= |ps| && key !in env && NoneBefore(ps, i, key)
    ensures EndsAt(env, ps, ScanEnd(ps, i, key))
    decreases |ps| - i
  {
    if i < |ps| && !Assigns(ps[i], key) {
      ScanEndsAt(env, ps, i + 1, key);
    }
  }

  /** Each cached value of a key outside the environment is that of its first line, or of its last line so far. */
  predicate Partway(env: map<string, string>, ps: seq<Option<Pair>>, n: nat, cache: Cache)
    requires n <= |ps|
  {
    forall k :: k in cache && k !in env
      ==> FirstValue(ps, 0, k) == Some(cache[k].val) || LastValue(ps, n, k) == Some(cache[k].val)
  }

  /** Each cached value of a key outside the environment is that of its first line. */
  predicate Right(env: map<string, string>, ps: seq<Option<Pair>>, cache: Cache) {
    forall k :: k in cache && k !in env ==> FirstValue(ps, 0, k) == Some(cache[k].val)
  }

  lemma {:induction false} ScanPartway(env: map<string, string>, ps: seq<Option<Pair>>, i: nat, key: string, now: int,
                                       evict: nat -> set<string>, cache: Cache)
    requires i <= |ps| && Partway(env, ps, i, cache)
    ensures Partway(env, ps, ScanEnd(ps, i, key), Scan(ps, i, key, now, evict, cache).1)
    decreases |ps| - i
  {
    if i < |ps| {
      var p := ps[i];
      if p.None? {
        assert Partway(env, ps, i + 1, cache);
        ScanPartway(env, ps, i + 1, key, now, evict, cache);
      } else {
        var cache' := Put(cache, p.value.key, Entry(now, p.value.value), evict(i));
        assert Partway(env, ps, i + 1, cache');
        if p.value.key != key {
          ScanPartway(env, ps, i + 1, key, now, evict, cache');
        }
      }
    }
  }

  lemma {:induction false} StableScanIsRight(env: map<string, string>, ps: seq<Option<Pair>>, key: string, now: int,
                          evict: nat -> set<string>, cache: Cache)
    requires Stable(env, ps) && key !in env && Right(env, ps, cache)
    ensures Right(env, ps, Scan(ps, 0, key, now, evict, cache).1)
  {
    ScanPartway(env, ps, 0, key, now, evict, cache);
    ScanEndsAt(env, ps, 0, key);
  }

  // ---- Runs over fixed sources ----

  lemma {:induction false} FixedFront(env: map<string, string>, file: Option<seq<string>>, calls: seq<Call>)
    requires FixedRun(env, file, calls) && calls != []
    ensures FixedRun(env, file, calls[..|calls| - 1])
  {
  }

  lemma {:induction false} StableCacheIsRight(ttl: int, env: map<string, string>, file: Option<seq<string>>,
              calls: seq<Call>)
    requires FixedRun(env, file, calls) && file.Some? && Stable(env, Parsed(file.value))
    ensures Right(env, Parsed(file.value), CacheAfter(ttl, calls))
  {
    if calls != [] {
      var front, c := calls[..|calls| - 1], calls[|calls| - 1];
      FixedFront(env, file, calls);
      StableCacheIsRight(ttl, env, file, front);
      var cache, key := CacheAfter(ttl, front), S.Upper(c.key);
      assert c.env == env && c.file == file;
      if key !in env && !Fresh(cache, ttl, key, c.now) {
        StableScanIsRight(env, Parsed(file.value), key, c.now, c.evict, cache - {key});
      }
    }
  }

  /** Without a file only environment values are cached. */
  lemma {:induction false} FilelessCache(ttl: int, env: map<string, string>, calls: seq<Call>)
    requires FixedRun(env, None, calls)
    ensures CacheAfter(ttl, calls).Keys <= env.Keys
  {
    if calls != [] {
      FixedFront(env, None, calls);
      FilelessCache(ttl, env, calls[..|calls| - 1]);
      assert calls[|calls| - 1].env == env && calls[|calls| - 1].file == None;
    }
  }

  /** With a negative time to live nothing cached is ever served. */
  lemma {:induction false} NothingIsFresh(ttl: int, env: map<string, string>, file: Option<seq<string>>,
              calls: seq<Call>, i: nat, key: string)
    requires FixedRun(env, file, calls) && i < |calls| && ttl < 0
    ensures !Fresh(CacheAfter(ttl, calls[..i]), ttl, key, calls[i].now)
  {
    var cache := CacheAfter(ttl, calls[..i]);
    CacheIsBacked(ttl, calls[..i]);
    if key in cache {
      assert Backed(calls[..i], key, cache[key]);
      var j :| 0 <= j < i && calls[..i][j].now == cache[key].time;
      assert calls[..i][j] == calls[j];
    }
  }

  ghost predicate Harmless(ttl: int, env: map<string, string>, file: Option<seq<string>>) {
    ttl < 0 || file.None? || Stable(env, Parsed(file.value))
  }

  lemma {:induction false} HarmlessAnswer(ttl: int, env: map<string, string>, file: Option<seq<string>>,
              calls: seq<Call>, i: nat)
    requires FixedRun(env, file, calls) && i < |calls| && Harmless(ttl, env, file)
    ensures AnswerAt(ttl, calls, i) == Uncached(env, file, calls[i].key)
  {
    var c, key, cache := calls[i], S.Upper(calls[i].key), CacheAfter(ttl, calls[..i]);
    assert c.env == env && c.file == file;
    assert FixedRun(env, file, calls[..i]);
    if key !in env {
      if ttl < 0 {
        NothingIsFresh(ttl, env, file, calls, i, key);
      }
      if file.None? {
        FilelessCache(ttl, env, calls[..i]);
      } else {
        ScanAnswers(Parsed(file.value), 0, key, c.now, c.evict, cache - {key});
        if ttl >= 0 {
          StableCacheIsRight(ttl, env, file, calls[..i]);
        }
      }
    }
  }

  // ---- A file that is not stable shows it ----

  function Keep(i: nat): set<string> { {} }

  /** A scan that evicts nothing leaves each key it passed with its last value so far, at the time of the call. */
  lemma {:induction false} ScanLeavesLast(ps: seq<Option<Pair>>, i: nat, key: string, now: int, cache: Cache, k: string)
    requires i <= |ps|
    requires LastValue(ps, i, k).Some? ==> k in cache && cache[k] == Entry(now, LastValue(ps, i, k).value)
    ensures var n, after := ScanEnd(ps, i, key), Scan(ps, i, key, now, Keep, cache).1;
            LastValue(ps, n, k).Some? ==> k in after && after[k] == Entry(now, LastValue(ps, n, k).value)
    decreases |ps| - i
  {
    if i < |ps| {
      var p := ps[i];
      if p.None? {
        ScanLeavesLast(ps, i + 1, key, now, cache, k);
      } else if p.value.key != key {
        ScanLeavesLast(ps, i + 1, key, now, Put(cache, p.value.key, Entry(now, p.value.value), {}), k);
      }
    }
  }

  /** A key longer than every key of the environment and the file. */
  function Zeros(n: nat): (s: string)
    ensures |s| == n && S.Upper(s) == s
  {
    if n == 0 then "" else
      assert (['0'] + Zeros(n - 1))[1..] == Zeros(n - 1);
      ['0'] + Zeros(n - 1)
  }

  lemma {:induction false} LongerThanAll(keys: set<string>) returns (n: nat)
    ensures forall k :: k in keys ==> |k| < n
    decreases |keys|
  {
    if keys == {} {
      n := 0;
    } else {
      var k :| k in keys;
      n := LongerThanAll(keys - {k});
      n := if n <= |k| then |k| + 1 else n;
    }
  }

  function FileKeys(ps: seq<Option<Pair>>): set<string> {
    set i | 0 <= i < |ps| && ps[i].Some? :: ps[i].value.key
  }

  lemma {:induction false} ScanEndIs(ps: seq<Option<Pair>>, i: nat, n: nat, key: string)
    requires i <= n <= |ps| && forall j :: i <= j < n ==> !Assigns(ps[j], key)
    ensures n == |ps| ==> ScanEnd(ps, i, key) == n
    ensures n < |ps| && Assigns(ps[n], key) ==> ScanEnd(ps, i, key) == n + 1
    decreases n - i
  {
    if i < n {
      ScanEndIs(ps, i + 1, n, key);
    }
  }

  /** For each place where a scan can end there is a lookup that ends there. */
  lemma {:induction false} SomeLookupEndsAt(env: map<string, string>, ps: seq<Option<Pair>>, n: nat)
    returns (key: string)
    requires Normal(ps) && EndsAt(env, ps, n)
    ensures key !in env && S.Upper(key) == key && n <= |ps| && ScanEnd(ps, 0, key) == n
  {
    if n == |ps| {
      var size := LongerThanAll(env.Keys + FileKeys(ps));
      key := Zeros(size);
      forall j | 0 <= j < n && ps[j].Some? ensures ps[j].value.key in FileKeys(ps) {
      }
      ScanEndIs(ps, 0, n, key);
    } else {
      key := ps[n - 1].value.key;
      ScanEndIs(ps, 0, n - 1, key);
    }
  }

  lemma {:induction false} KeysAreUpper(ps: seq<Option<Pair>>, n: nat, key: string)
    requires Normal(ps) && n <= |ps| && LastValue(ps, n, key).Some?
    ensures S.Upper(key) == key
  {
    if ps[n - 1].None? || ps[n - 1].value.key != key {
      KeysAreUpper(ps, n - 1, key);
    }
  }

  /** A lookup whose scan ends at n leaves the last value of the key before n in the cache. */
  lemma {:induction false} FirstLookupCaches(ttl: int, c: Call, lines: seq<string>, n: nat, key: string)
    requires var ps := Parsed(lines);
             && n <= |ps| && c.file == Some(lines) && c.evict == Keep && S.Upper(c.key) == c.key && c.key !in c.env
             && ScanEnd(ps, 0, c.key) == n && LastValue(ps, n, key).Some?
    ensures key in CacheAfter(ttl, [c]) && CacheAfter(ttl, [c])[key] ==
            Entry(c.now, LastValue(Parsed(lines), n, key).value)
  {
    var ps, none: Cache := Parsed(lines), map[];
    assert none - {c.key} == none;
    ScanLeavesLast(ps, 0, c.key, c.now, none, key);
    assert [c][..0] == [] && CacheAfter(ttl, []) == none;
    assert CacheAfter(ttl, [c]) == Lookup(none, ttl, c).1 == Scan(ps, 0, c.key, c.now, Keep, none).1;
  }

  /** A fresh entry is what a lookup answers. */
  lemma {:induction false} CachedAnswer(ttl: nat, cache: Cache, c: Call, e: Entry)
    requires S.Upper(c.key) == c.key && c.key !in c.env && c.key in cache && cache[c.key] == e && c.now - e.time <= ttl
    ensures Lookup(cache, ttl, c).0 == Answer(e.val, true)
  {
  }

  /** A call that is not served from the cache. */
  predicate Looks(cache: Cache, ttl: int, c: Call) {
    var key := S.Upper(c.key);
    key in c.env || key !in cache || c.now - cache[key].time > ttl
  }

  /** A scan that finds the key leaves it cached with its value, unless it is evicted at once. */
  lemma {:induction false} ScanCaches(ps: seq<Option<Pair>>, i: nat, key: string, now: int, evict: nat -> set<string>,
              cache: Cache)
    requires i <= |ps|
    ensures var (a, after) := Scan(ps, i, key, now, evict, cache);
            key in after && key !in cache ==> a.found && after[key] == Entry(now, a.value)
    decreases |ps| - i
  {
    if i < |ps| {
      if ps[i].None? {
        ScanCaches(ps, i + 1, key, now, evict, cache);
      } else if ps[i].value.key != key {
        ScanCaches(ps, i + 1, key, now, evict, Put(cache, ps[i].value.key, Entry(now, ps[i].value.value), evict(i)));
      }
    }
  }

  /**
    What a call that looks at the sources answers is what the next call of the key answers too, for as
    long as the time to live and no longer, unless it was evicted or was a blank value of the environment:
    then, and later, the next call looks again.
  */
  lemma {:induction false} AnswerIsKeptForTtl(ttl: int, cache: Cache, first: Call, second: Call)
    requires Looks(cache, ttl, first) && S.Upper(first.key) == S.Upper(second.key)
    requires S.Upper(second.key) !in second.env
    ensures var key, (a, after) := S.Upper(first.key), Lookup(cache, ttl, first);
            && a == Uncached(first.env, first.file, first.key)
            && (key in after ==> a.found && !(key in first.env && S.TrimSpace(first.env[key]) == ""))
            && Lookup(after, ttl, second).0 ==
               if key in after && second.now - first.now <= ttl then a
               else Uncached(second.env, second.file, second.key)
  {
    var key := S.Upper(first.key);
    var (a, after) := Lookup(cache, ttl, first);
    if key !in first.env && first.file.Some? {
      ScanAnswers(Parsed(first.file.value), 0, key, first.now, first.evict, cache - {key});
      ScanCaches(Parsed(first.file.value), 0, key, first.now, first.evict, cache - {key});
    }
    if second.file.Some? {
      ScanAnswers(Parsed(second.file.value), 0, key, second.now, second.evict, after - {key});
    }
  }

  /** Nothing is forgotten but what is evicted: with no eviction, whatever a looking call finds is cached. */
  lemma {:induction false} FoundIsCached(ttl: int, cache: Cache, c: Call)
    requires Looks(cache, ttl, c) && c.evict == Keep && Lookup(cache, ttl, c).0.found
    requires S.Upper(c.key) in c.env ==> S.TrimSpace(c.env[S.Upper(c.key)]) != ""
    ensures S.Upper(c.key) in Lookup(cache, ttl, c).1
  {
    var key := S.Upper(c.key);
    if key !in c.env && c.file.Some? {
      ScanKeepsFound(Parsed(c.file.value), 0, key, c.now, cache - {key});
    }
  }

  lemma {:induction false} ScanKeepsFound(ps: seq<Option<Pair>>, i: nat, key: string, now: int, cache: Cache)
    requires i <= |ps|
    ensures Scan(ps, i, key, now, Keep, cache).0.found ==> key in Scan(ps, i, key, now, Keep, cache).1
    decreases |ps| - i
  {
    if i < |ps| {
      if ps[i].None? {
        ScanKeepsFound(ps, i + 1, key, now, cache);
      } else if ps[i].value.key != key {
        ScanKeepsFound(ps, i + 1, key, now, Put(cache, ps[i].value.key, Entry(now, ps[i].value.value), {}));
      }
    }
  }

  lemma {:induction false} SecondCallShows(ttl: int, env: map<string, string>, file: Option<seq<string>>,
              first: Call, second: Call)
    requires first.env == second.env == env && first.file == second.file == file && first.now == second.now
    requires Lookup(CacheAfter(ttl, [first]), ttl, second).0 != Uncached(env, file, second.key)
    ensures FixedRun(env, file, [first, second]) && !Transparent(ttl, env, file, [first, second])
  {
    var calls := [first, second];
    assert calls[..1] == [first] && calls[1] == second;
    assert AnswerAt(ttl, calls, 1) == Lookup(CacheAfter(ttl, [first]), ttl, second).0;
  }

  /** Two lookups at one time tell an unstable file: one that ends its scan at n, then one of the key. */
  lemma {:induction false} UnstableShows(ttl: nat, env: map<string, string>, lines: seq<string>,
              ps: seq<Option<Pair>>, n: nat, key: string)
    returns (calls: seq<Call>)
    requires ps == Parsed(lines) && Normal(ps) && n <= |ps| && EndsAt(env, ps, n) && key !in env
             && LastValue(ps, n, key).Some?
    requires LastValue(ps, n, key) != FirstValue(ps, 0, key)
    ensures FixedRun(env, Some(lines), calls) && !Transparent(ttl, env, Some(lines), calls)
  {
    var ending := SomeLookupEndsAt(env, ps, n);
    KeysAreUpper(ps, n, key);
    var first, second := Call(ending, 0, env, Some(lines), Keep), Call(key, 0, env, Some(lines), Keep);
    calls := [first, second];
    FirstLookupCaches(ttl, first, lines, n, key);
    CachedAnswer(ttl, CacheAfter(ttl, [first]), second, Entry(0, LastValue(ps, n, key).value));
    assert Uncached(env, Some(lines), key) != Answer(LastValue(ps, n, key).value, true);
    SecondCallShows(ttl, env, Some(lines), first, second);
  }

  /** Every run over these sources answers as without a cache. */
  ghost predicate CacheIsInvisible(ttl: int, env: map<string, string>, file: Option<seq<string>>) {
    forall calls :: FixedRun(env, file, calls) ==> Transparent(ttl, env, file, calls)
  }

  /**
    Over fixed sources the cache never shows, whatever is evicted, exactly when it serves
    nothing (a negative time to live), there is no file, or the file is stable.
  */
  lemma {:induction false} CacheIsInvisibleIffHarmless(ttl: int, env: map<string, string>, file: Option<seq<string>>)
    ensures CacheIsInvisible(ttl, env, file) <==> Harmless(ttl, env, file)
  {
    if Harmless(ttl, env, file) {
      forall calls: seq<Call> | FixedRun(env, file, calls) ensures Transparent(ttl, env, file, calls) {
        forall i | 0 <= i < |calls| ensures AnswerAt(ttl, calls, i) == Uncached(env, file, calls[i].key) {
          HarmlessAnswer(ttl, env, file, calls, i);
        }
      }
    } else {
      var ps := Parsed(file.value);
      ParsedIsNormal(file.value);
      var n, key :| 0 <= n <= |ps| && EndsAt(env, ps, n) && key !in env && LastValue(ps, n, key).Some?
                    && LastValue(ps, n, key) != FirstValue(ps, 0, key);
      var calls := UnstableShows(ttl, env, file.value, ps, n, key);
      assert FixedRun(env, file, calls) && !Transparent(ttl, env, file, calls);
    }
  }

  // ---- Files without repeated keys ----

  predicate KeysAreUnique(ps: seq<Option<Pair>>) {
    forall i, j :: 0 <= i < j < |ps| && ps[i].Some? ==> !Assigns(ps[j], ps[i].value.key)
  }

  lemma {:induction false} FirstAt(ps: seq<Option<Pair>>, i: nat, n: nat, key: string)
    requires i <= n < |ps| && Assigns(ps[n], key) && forall j :: i <= j < n ==> !Assigns(ps[j], key)
    ensures FirstValue(ps, i, key) == Some(ps[n].value.value)
    decreases n - i
  {
    if i < n {
      FirstAt(ps, i + 1, n, key);
    }
  }

  lemma {:induction false} UniqueLastIsFirst(ps: seq<Option<Pair>>, n: nat, key: string)
    requires KeysAreUnique(ps) && n <= |ps| && LastValue(ps, n, key).Some?
    ensures LastValue(ps, n, key) == FirstValue(ps, 0, key)
  {
    if Assigns(ps[n - 1], key) {
      FirstAt(ps, 0, n - 1, key);
    } else {
      UniqueLastIsFirst(ps, n - 1, key);
    }
  }

  /** A file whose normalized keys are unique is stable, so its cache never shows. */
  lemma {:induction false} UniqueKeysAreStable(ttl: int, env: map<string, string>, lines: seq<string>)
    requires KeysAreUnique(Parsed(lines))
    ensures Stable(env, Parsed(lines)) && CacheIsInvisible(ttl, env, Some(lines))
  {
    var ps := Parsed(lines);
    forall n, key | 0 <= n <= |ps| && EndsAt(env, ps, n) && key !in env && LastValue(ps, n, key).Some?
      ensures LastValue(ps, n, key) == FirstValue(ps, 0, key)
    {
      UniqueLastIsFirst(ps, n, key);
    }
    CacheIsInvisibleIffHarmless(ttl, env, Some(lines));
  }
}
