/**
  Environment lookup (common/env.go): the process environment, then a cache with a time
  to live, then a scan of the `.env` file that fills the cache as it goes. The model
  upper-cases ASCII letters only; evictions are arbitrary.
*/
module EnvLookup {
  import opened Options
  import Q = Seqs
  import S = Strings

  // ---- Lines of a .env file ----

  function LowerChar(c: char): char {
    if 'A' <= c <= 'Z' then (c as int + 32) as char else c
  }

  function Lower(s: string): string {
    if s == "" then "" else [LowerChar(s[0])] + Lower(s[1..])
  }

  /** Position of the first `=` at or after i, or the length. */
  function EqualsAt(s: string, i: nat): (k: nat)
    requires i <= |s|
    ensures i <= k <= |s| && (k < |s| ==> s[k] == '=') && forall j :: i <= j < k ==> s[j] != '='
    decreases |s| - i
  {
    if i == |s| || s[i] == '=' then i else EqualsAt(s, i + 1)
  }

  /** A `#` that starts a comment: not first, and after a space or tab. */
  predicate CommentAt(v: string, i: nat) {
    0 < i < |v| && v[i] == '#' && (v[i - 1] == ' ' || v[i - 1] == '\t')
  }

  function CommentStart(v: string, i: nat): (k: nat)
    requires i <= |v|
    ensures i <= k <= |v| && (k < |v| ==> CommentAt(v, k)) && forall j :: i <= j < k ==> !CommentAt(v, j)
    decreases |v| - i
  {
    if i == |v| || CommentAt(v, i) then i else CommentStart(v, i + 1)
  }

  predicate IsQuote(c: char) {
    c == '"' || c == '\''
  }

  function WithoutComment(v: string): string {
    if v == "" || IsQuote(v[0]) || CommentStart(v, 0) == |v| then v else S.TrimSpace(v[..CommentStart(v, 0)])
  }

  function Unquoted(v: string): string {
    if |v| >= 2 && IsQuote(v[0]) && v[|v| - 1] == v[0] then S.TrimSpace(v[1..|v| - 1]) else v
  }

  function EnvValue(v: string): string {
    Unquoted(WithoutComment(S.TrimSpace(v)))
  }

  method TrimEnvValue(s: string) returns (v: string)
    ensures v == EnvValue(s)
  {
    v := S.TrimSpace(s);
    if v != "" && !IsQuote(v[0]) {
      var trimmed := v;
      for i := 0 to |trimmed|
        invariant v == trimmed && forall j :: 0 <= j < i ==> !CommentAt(trimmed, j)
        invariant CommentStart(trimmed, 0) == CommentStart(trimmed, i)
      {
        if trimmed[i] != '#' {
          continue;
        }
        if i > 0 && (trimmed[i - 1] == ' ' || trimmed[i - 1] == '\t') {
          v := S.TrimSpace(trimmed[..i]);
          break;
        }
      }
    }
    return Unquoted(v);
  }

  /** The key text of an assignment, without a leading `export `. */
  function KeyText(k: string): string {
    var t := S.TrimSpace(k);
    if S.HasPrefix(Lower(t), "export ") && |t| >= 7 then S.TrimSpace(t[7..]) else t
  }

  function NormalizedKey(k: string): string {
    S.Upper(S.TrimSpace(KeyText(k)))
  }

  datatype Pair = Pair(key: string, value: string)

  /** The assignment on a line, if it holds one. */
  function ParseLine(line: string): (p: Option<Pair>)
    ensures p.Some? ==> p.value.key != "" && S.Upper(p.value.key) == p.value.key
  {
    var v := S.TrimSpace(line);
    if v == "" || v[0] == '#' || EqualsAt(v, 0) == |v| then None
    else
      var k := NormalizedKey(v[..EqualsAt(v, 0)]);
      S.UpperTwice(S.TrimSpace(KeyText(v[..EqualsAt(v, 0)])));
      if k == "" then None else Some(Pair(k, EnvValue(v[EqualsAt(v, 0) + 1..])))
  }

  // ---- Reading back a written assignment ----

  lemma {:induction false} LowerAt(s: string, i: nat)
    requires i < |s|
    ensures |Lower(s)| == |s| && Lower(s)[i] == LowerChar(s[i])
  {
    LowerLength(s);
    if i > 0 {
      LowerAt(s[1..], i - 1);
    }
  }

  lemma {:induction false} LowerLength(s: string)
    ensures |Lower(s)| == |s|
  {
    if s != "" {
      LowerLength(s[1..]);
    }
  }

  /** The word `export` in any letter case, and a space. */
  predicate ExportWord(w: string) {
    |w| == 7 && w[6] == ' ' && forall i :: 0 <= i < 6 ==> w[i] == "export"[i] || w[i] == "EXPORT"[i]
  }

  lemma {:induction false} ExportWordIff(w: string)
    ensures Lower(w) == "export " <==> ExportWord(w)
  {
    LowerLength(w);
    forall i | 0 <= i < |w| ensures Lower(w)[i] == LowerChar(w[i]) {
      LowerAt(w, i);
    }
    if ExportWord(w) {
      forall i | 0 <= i < 7 ensures Lower(w)[i] == "export "[i] {
        assert i < 6 ==> w[i] == "export"[i] || w[i] == "EXPORT"[i];
      }
    }
    if Lower(w) == "export " {
      forall i | 0 <= i < 7 ensures LowerChar(w[i]) == "export "[i] {
        assert Lower(w)[i] == LowerChar(w[i]);
      }
    }
  }

  lemma {:induction false} LowerOfFront(s: string, n: nat)
    requires n <= |s|
    ensures |Lower(s)| == |s| && Lower(s)[..n] == Lower(s[..n])
  {
    LowerLength(s);
    LowerLength(s[..n]);
    forall i | 0 <= i < n ensures Lower(s)[..n][i] == Lower(s[..n])[i] {
      LowerAt(s, i);
      LowerAt(s[..n], i);
    }
  }

  lemma {:induction false} ExportPrefixIff(s: string)
    ensures S.HasPrefix(Lower(s), "export ") <==> |s| >= 7 && ExportWord(s[..7])
  {
    LowerLength(s);
    if |s| >= 7 {
      LowerOfFront(s, 7);
      ExportWordIff(s[..7]);
    }
  }

  /** A name, in any letter case, under which the file can assign a key. */
  predicate Writable(name: string) {
    && name != "" && S.Tight(S.IsSpace, name) && S.Free(name, '=') && name[0] != '#'
    && (|name| >= 7 ==> !ExportWord(name[..7]))
  }

  function Quote(q: char, s: string): string {
    [q] + s + [q]
  }

  lemma {:induction false} TightTrims(s: string)
    ensures S.TrimSpace(s) == s <==> S.Tight(S.IsSpace, s)
  {
    var l, r := S.TrimPads(S.IsSpace, s);
    if S.Tight(S.IsSpace, s) {
      assert s == "" + s + "";
      S.TrimUnique(S.IsSpace, "", s, "");
    }
  }

  lemma {:induction false} QuotedValue(q: char, value: string)
    requires q == '"' || q == '\''
    ensures EnvValue(Quote(q, value)) == S.TrimSpace(value)
  {
    var v := Quote(q, value);
    assert v[0] == q && v[|v| - 1] == q && v[1..|v| - 1] == value;
    TightTrims(v);
  }

  /** A quote that is not closed at the end leaves the value as it is, comment and all. */
  lemma {:induction false} UnclosedQuoteStays(q: char, value: string)
    requires q == '"' || q == '\''
    requires value == "" || (value[|value| - 1] != q && !S.IsSpace(value[|value| - 1]))
    ensures EnvValue([q] + value) == [q] + value
  {
    var v := [q] + value;
    assert value != "" ==> v[|v| - 1] == value[|value| - 1];
    TightTrims(v);
  }

  /** How a name is introduced on a line: by nothing, or by `export` in any letter case, and then by blanks. */
  predicate Introduces(word: string, pad: string) {
    (word == "" || ExportWord(word)) && S.Blank(S.IsSpace, pad)
  }

  lemma {:induction false} ExportedKeyText(word: string, pad: string, name: string)
    requires ExportWord(word) && S.Blank(S.IsSpace, pad) && Writable(name)
    ensures KeyText(word + pad + name) == name
  {
    var k := word + pad + name;
    assert k[0] == word[0] && k[|k| - 1] == name[|name| - 1] && k[..7] == word && k[7..] == pad + name;
    assert word[0] == "export"[0] || word[0] == "EXPORT"[0];
    TightTrims(k);
    ExportPrefixIff(k);
    assert pad + name == pad + name + "";
    S.TrimUnique(S.IsSpace, pad, name, "");
  }

  lemma {:induction false} WrittenKeyText(word: string, pad: string, name: string)
    requires Introduces(word, pad) && Writable(name)
    ensures KeyText(word + pad + name) == name
  {
    if word == "" {
      assert word + pad + name == pad + name + "";
      S.TrimUnique(S.IsSpace, pad, name, "");
      ExportPrefixIff(name);
    } else {
      ExportedKeyText(word, pad, name);
    }
  }

  /** The line is a comment: its first character that is not blank is `#`. */
  predicate IsComment(line: string) {
    S.HasPrefix(S.TrimLeft(S.IsSpace, line), "#")
  }

  lemma {:induction false} TrimmedLine(k: string, value: string)
    ensures S.TrimSpace(k + "=" + value) == S.TrimLeft(S.IsSpace, k) + "=" + S.TrimRight(S.IsSpace, value)
  {
    var u, rest, rest' := S.TrimLeft(S.IsSpace, k), ['='] + value, ['='] + S.TrimRight(S.IsSpace, value);
    assert rest[0] == '=' && !S.Blank(S.IsSpace, rest);
    S.TrimOfFront(S.IsSpace, k, rest);
    S.TrimRightOfCons(S.IsSpace, '=', value);
    assert S.TrimSpace(rest) == rest';
    assert u == "" ==> u + rest' == rest';
    assert k + "=" + value == k + rest && u + "=" + S.TrimRight(S.IsSpace, value) == u + rest';
  }

  lemma {:induction false} TrimTwice(s: string)
    ensures S.TrimSpace(S.TrimLeft(S.IsSpace, s)) == S.TrimSpace(s) == S.TrimSpace(S.TrimRight(S.IsSpace, s))
  {
    var l := S.TrimLeftPads(S.IsSpace, s);
    var r := S.TrimRightPads(S.IsSpace, s);
    assert s == l + S.TrimLeft(S.IsSpace, s) + "" && s == "" + S.TrimRight(S.IsSpace, s) + r;
    S.TrimAround(S.IsSpace, l, S.TrimLeft(S.IsSpace, s), "");
    S.TrimAround(S.IsSpace, "", S.TrimRight(S.IsSpace, s), r);
  }

  /** The same for a line that has been trimmed. */
  lemma {:induction false} TrimmedLineReads(line: string, u: string, w: string)
    requires S.TrimSpace(line) == u + "=" + w && S.Free(u, '=')
    ensures ParseLine(line) ==
            if S.HasPrefix(u, "#") || NormalizedKey(u) == "" then None else Some(Pair(NormalizedKey(u), EnvValue(w)))
  {
    var v := u + "=" + w;
    assert v[|u|] == '=' && forall i :: 0 <= i < |u| ==> v[i] == u[i];
    assert EqualsAt(v, 0) == |u| && v[..|u|] == u && v[|u| + 1..] == w;
    assert S.HasPrefix(u, "#") <==> v[0] == '#' by {
      assert u != "" ==> u[..1] == [u[0]];
    }
  }

  lemma {:induction false} TrimLeftIsFree(s: string, c: char)
    requires S.Free(s, c)
    ensures S.Free(S.TrimLeft(S.IsSpace, s), c)
  {
    var l := S.TrimLeftPads(S.IsSpace, s);
    assert forall i :: 0 <= i < |s| - |l| ==> S.TrimLeft(S.IsSpace, s)[i] == s[|l| + i];
  }

  /**
    What a line with an equals sign assigns, k being the text before its first one: nothing if it
    is a comment or its key comes to nothing, and otherwise that key and the trimmed value.
  */
  lemma {:induction false} LineReads(k: string, value: string)
    requires S.Free(k, '=')
    ensures ParseLine(k + "=" + value) ==
            if IsComment(k) || NormalizedKey(k) == "" then None else Some(Pair(NormalizedKey(k), EnvValue(value)))
  {
    TrimmedLine(k, value);
    TrimLeftIsFree(k, '=');
    TrimmedLineReads(k + "=" + value, S.TrimLeft(S.IsSpace, k), S.TrimRight(S.IsSpace, value));
    TrimTwice(k);
    TrimTwice(value);
  }

  /** A line without an equals sign assigns nothing. */
  lemma {:induction false} LineWithoutEquals(line: string)
    requires S.Free(line, '=')
    ensures ParseLine(line) == None
  {
    var v := S.TrimSpace(line);
    var l, r := S.TrimPads(S.IsSpace, line);
    assert forall i :: 0 <= i < |v| ==> v[i] == line[|l| + i];
  }

  lemma {:induction false} WrittenIsNoComment(word: string, pad: string, name: string)
    requires Introduces(word, pad) && Writable(name)
    ensures !IsComment(word + pad + name)
  {
    var k := word + pad + name;
    if word == "" {
      assert k == pad + name && name[..1] == [name[0]];
      S.TrimLeftDrops(S.IsSpace, pad, name);
    } else {
      assert k[0] == word[0] && k[..1] == [k[0]];
      assert word[0] == "export"[0] || word[0] == "EXPORT"[0];
    }
  }

  /** A name that is written, exported or not, assigns its upper-cased key, with whatever value. */
  lemma {:induction false} WrittenLine(word: string, pad: string, name: string, value: string)
    requires Introduces(word, pad) && Writable(name)
    ensures ParseLine(word + pad + name + "=" + value) == Some(Pair(S.Upper(name), EnvValue(value)))
  {
    var k := word + pad + name;
    WrittenKeyText(word, pad, name);
    WrittenIsNoComment(word, pad, name);
    TightTrims(name);
    assert S.Free(k, '=') by {
      assert forall i :: 0 <= i < |word| ==> word[i] != '=';
    }
    LineReads(k, value);
  }

  /** A quoted assignment reads back exactly when its value has no blank at either end. */
  lemma {:induction false} QuotedRoundTrip(word: string, pad: string, name: string, q: char, value: string)
    requires Introduces(word, pad) && Writable(name) && (q == '"' || q == '\'')
    ensures var line := word + pad + name + "=" + [q] + value + [q];
            ParseLine(line) == Some(Pair(S.Upper(name), value)) <==> S.Tight(S.IsSpace, value)
  {
    var key := word + pad + name + "=";
    Q.Associates(key, [q], value);
    Q.Associates(key, [q] + value, [q]);
    WrittenLine(word, pad, name, Quote(q, value));
    QuotedValue(q, value);
    TightTrims(value);
  }

  /** No `#` of the text comes after a space or a tab. */
  predicate NoComment(v: string) {
    forall i :: 0 < i < |v| && v[i] == '#' ==> v[i - 1] != ' ' && v[i - 1] != '\t'
  }

  /** An unquoted value without a comment stays as it is. */
  lemma {:induction false} PlainValueStays(v: string)
    requires v != "" && S.Tight(S.IsSpace, v) && v[0] != '"' && v[0] != '\'' && NoComment(v)
    ensures EnvValue(v) == v
  {
    TightTrims(v);
    forall i | 0 <= i < |v| ensures !CommentAt(v, i) {
    }
  }

  /** Trimming keeps everything from a first character that is not blank to any other such character. */
  lemma {:induction false} TrimKeepsFront(s: string, n: nat)
    requires 0 < n <= |s| && !S.IsSpace(s[0]) && !S.IsSpace(s[n - 1])
    ensures n <= |S.TrimSpace(s)| <= |s| && S.TrimSpace(s)[..n] == s[..n]
  {
    var l, r := S.TrimPads(S.IsSpace, s);
    var t := S.TrimSpace(s);
    if l != "" {
      assert false;
    }
    assert s == t + r;
    if |t| < n {
      assert false;
    }
  }

  lemma {:induction false} CommentIsFound(t: string, v: string, blank: char)
    requires v != "" && NoComment(v) && (blank == ' ' || blank == '\t')
    requires v + [blank, '#'] <= t
    ensures CommentStart(t, 0) == |v| + 1
  {
    var front := v + [blank, '#'];
    forall i | 0 <= i < |front| ensures t[i] == front[i] {
      assert t[..|front|][i] == front[i];
    }
    assert forall i :: 0 <= i < |v| ==> front[i] == v[i];
    assert !CommentAt(t, |v|);
    assert CommentAt(t, |v| + 1);
  }

  lemma {:induction false} CommentIsCut(s: string, v: string, blank: char)
    requires v != "" && S.Tight(S.IsSpace, v) && v[0] != '"' && v[0] != '\'' && NoComment(v)
    requires (blank == ' ' || blank == '\t') && v + [blank, '#'] <= s
    ensures EnvValue(s) == v
  {
    var front, n := v + [blank, '#'], |v| + 2;
    assert front[0] == v[0] && front[n - 1] == '#';
    assert s[..n] == front && s[0] == s[..n][0] && s[n - 1] == s[..n][n - 1];
    TrimKeepsFront(s, n);
    var t := S.TrimSpace(s);
    assert t[0] == t[..n][0];
    CommentIsFound(t, v, blank);
    assert t[..n - 1] == t[..n][..n - 1] == front[..n - 1] == "" + v + [blank];
    S.TrimUnique(S.IsSpace, "", v, [blank]);
  }

  /** A comment after an unquoted value is dropped. */
  lemma {:induction false} CommentIsDropped(v: string, blank: char, comment: string)
    requires v != "" && S.Tight(S.IsSpace, v) && v[0] != '"' && v[0] != '\'' && NoComment(v)
    requires blank == ' ' || blank == '\t'
    ensures EnvValue(v + [blank] + "#" + comment) == v
  {
    Q.Associates(v, [blank], "#");
    CommentIsCut(v + [blank] + "#" + comment, v, blank);
  }

  /** What each line assigns. */
  function Parsed(lines: seq<string>): (ps: seq<Option<Pair>>)
    ensures |ps| == |lines| && forall i :: 0 <= i < |ps| ==> ps[i] == ParseLine(lines[i])
  {
    seq(|lines|, i requires 0 <= i < |lines| => ParseLine(lines[i]))
  }

  // ---- One lookup ----

  datatype Entry = Entry(time: int, val: string)

  type Cache = map<string, Entry>

  datatype Answer = Answer(value: string, found: bool)

  /** One call: the clock, the sources as they are then, and what is evicted after each cache write. */
  datatype Call = Call(key: string, now: int, env: map<string, string>, file: Option<seq<string>>,
                       evict: nat -> set<string>)

  function Put(cache: Cache, key: string, e: Entry, evicted: set<string>): Cache {
    cache[key := e] - evicted
  }

  /** Scans the assignments from i on, caching each one passed, until the key is found. */
  function Scan(ps: seq<Option<Pair>>, i: nat, key: string, now: int, evict: nat -> set<string>,
              cache: Cache): (Answer, Cache)
    requires i <= |ps|
    decreases |ps| - i
  {
    if i == |ps| then (Answer("", false), cache)
    else if ps[i].None? then Scan(ps, i + 1, key, now, evict, cache)
    else
      var cache' := Put(cache, ps[i].value.key, Entry(now, ps[i].value.value), evict(i));
      if ps[i].value.key == key then (Answer(ps[i].value.value, true), cache')
      else Scan(ps, i + 1, key, now, evict, cache')
  }

  predicate Fresh(cache: Cache, ttl: int, key: string, now: int) {
    key in cache && now - cache[key].time <= ttl
  }

  function Lookup(cache: Cache, ttl: int, c: Call): (Answer, Cache) {
    var key := S.Upper(c.key);
    if key in c.env then
      var v := S.TrimSpace(c.env[key]);
      if v != "" then (Answer(v, true), Put(cache, key, Entry(c.now, v), c.evict(0)))
      else (Answer("", true), cache - {key})
    else if Fresh(cache, ttl, key, c.now) then (Answer(cache[key].val, true), cache)
    else if c.file.None? then (Answer("", false), cache - {key})
    else Scan(Parsed(c.file.value), 0, key, c.now, c.evict, cache - {key})
  }

  class EnvCache {
    const ttl: int
    var cache: Cache

    constructor (ttl: int)
      ensures this.ttl == ttl && cache == map[]
    {
      this.ttl := ttl;
      cache := map[];
    }

    method LookupEnv(c: Call) returns (value: string, found: bool)
      modifies this`cache
      ensures (Answer(value, found), cache) == Lookup(old(cache), ttl, c)
    {
      var key := S.Upper(c.key);
      if key in c.env {
        var v := S.TrimSpace(c.env[key]);
        if v != "" {
          cache := cache[key := Entry(c.now, v)] - c.evict(0);
          return v, true;
        }
        cache := cache - {key};
        return "", true;
      }
      if key in cache {
        if c.now - cache[key].time <= ttl {
          return cache[key].val, true;
        }
      }
      cache := cache - {key};
      if c.file.Some? {
        var lines := c.file.value;
        ghost var start, ps := cache, Parsed(lines);
        for i := 0 to |lines|
          invariant Scan(ps, 0, key, c.now, c.evict, start) == Scan(ps, i, key, c.now, c.evict, cache)
        {
          var p := ParseLine(lines[i]);
          if p.None? {
            continue;
          }
          cache := cache[p.value.key := Entry(c.now, p.value.value)] - c.evict(i);
          if p.value.key == key {
            return p.value.value, true;
          }
        }
      }
      return "", false;
    }
  }

  // ---- Runs of calls ----

  function CacheAfter(ttl: int, calls: seq<Call>): Cache {
    if calls == [] then map[] else Lookup(CacheAfter(ttl, calls[..|calls| - 1]), ttl, calls[|calls| - 1]).1
  }

  /** What call i of a run answers. */
  function AnswerAt(ttl: int, calls: seq<Call>, i: nat): Answer
    requires i < |calls|
  {
    Lookup(CacheAfter(ttl, calls[..i]), ttl, calls[i]).0
  }

  // ---- Changing sources: a cached value is at most one TTL old ----

  /** One of the two sources gave the value for the key when the call was made. */
  ghost predicate Gives(c: Call, key: string, value: string) {
    || (key in c.env && S.TrimSpace(c.env[key]) == value)
    || (c.file.Some? && Some(Pair(key, value)) in Parsed(c.file.value))
  }

  ghost predicate Backed(calls: seq<Call>, key: string, e: Entry) {
    exists j :: 0 <= j < |calls| && calls[j].now == e.time && Gives(calls[j], key, e.val)
  }

  ghost predicate CacheBacked(calls: seq<Call>, cache: Cache) {
    forall k :: k in cache ==> Backed(calls, k, cache[k])
  }

  lemma {:induction false} ScanBacked(c: Call, ps: seq<Option<Pair>>, i: nat, key: string, cache: Cache,
              calls: seq<Call>)
    requires i <= |ps| && calls != [] && calls[|calls| - 1] == c && CacheBacked(calls, cache)
    requires forall k, v :: Some(Pair(k, v)) in ps ==> Gives(c, k, v)
    ensures CacheBacked(calls, Scan(ps, i, key, c.now, c.evict, cache).1)
    decreases |ps| - i
  {
    if i < |ps| {
      if ps[i].None? {
        ScanBacked(c, ps, i + 1, key, cache, calls);
      } else {
        var p := ps[i].value;
        assert ps[i] == Some(Pair(p.key, p.value));
        assert Backed(calls, p.key, Entry(c.now, p.value));
        var cache' := Put(cache, p.key, Entry(c.now, p.value), c.evict(i));
        assert CacheBacked(calls, cache');
        if p.key != key {
          ScanBacked(c, ps, i + 1, key, cache', calls);
        }
      }
    }
  }

  lemma {:induction false} BackedGrows(calls: seq<Call>, c: Call, cache: Cache)
    requires CacheBacked(calls, cache)
    ensures CacheBacked(calls + [c], cache)
  {
    forall k | k in cache ensures Backed(calls + [c], k, cache[k]) {
      var j :| 0 <= j < |calls| && calls[j].now == cache[k].time && Gives(calls[j], k, cache[k].val);
      assert (calls + [c])[j] == calls[j];
    }
  }

  lemma {:induction false} CacheIsBacked(ttl: int, calls: seq<Call>)
    ensures CacheBacked(calls, CacheAfter(ttl, calls))
  {
    if calls != [] {
      var front, c := calls[..|calls| - 1], calls[|calls| - 1];
      var cache, key := CacheAfter(ttl, front), S.Upper(c.key);
      CacheIsBacked(ttl, front);
      BackedGrows(front, c, cache);
      assert front + [c] == calls;
      if key in c.env {
        assert Gives(c, key, S.TrimSpace(c.env[key]));
        assert Backed(calls, key, Entry(c.now, S.TrimSpace(c.env[key])));
      } else if !Fresh(cache, ttl, key, c.now) && c.file.Some? {
        ScanBacked(c, Parsed(c.file.value), 0, key, cache - {key}, calls);
      }
    }
  }

  /**
    However the sources change, a value served from the cache was given for that key by a source at
    most one TTL earlier.
  */
  lemma {:induction false} ServedValuesAreRecent(ttl: int, calls: seq<Call>, i: nat)
    requires i < |calls| && S.Upper(calls[i].key) !in calls[i].env
    requires Fresh(CacheAfter(ttl, calls[..i]), ttl, S.Upper(calls[i].key), calls[i].now)
    ensures exists j :: 0 <= j < i && calls[i].now - calls[j].now <= ttl
                        && AnswerAt(ttl, calls, i).found
                        && Gives(calls[j], S.Upper(calls[i].key), AnswerAt(ttl, calls, i).value)
  {
    var cache, key := CacheAfter(ttl, calls[..i]), S.Upper(calls[i].key);
    CacheIsBacked(ttl, calls[..i]);
    assert Backed(calls[..i], key, cache[key]);
    var j :| 0 <= j < i && calls[..i][j].now == cache[key].time && Gives(calls[..i][j], key, cache[key].val);
    assert calls[..i][j] == calls[j];
  }
}
