/**
  String helpers shared by the models: trimming by a character class, prefixes
  and concatenation. Strings stand for Go strings, one `char` for one character.
*/
module Strings {

  /** Go's unicode.IsSpace, used by strings.TrimSpace. */
  predicate IsSpace(c: char) {
    || c == ' ' || '\t' <= c <= '\r'
    || c == '\U{85}' || c == '\U{A0}' || c == '\U{1680}'
    || '\U{2000}' <= c <= '\U{200A}'
    || c == '\U{2028}' || c == '\U{2029}' || c == '\U{202F}' || c == '\U{205F}' || c == '\U{3000}'
  }

  /** The white space of Unicode, one by one. */
  lemma {:induction false} SpacesAre(c: char)
    ensures IsSpace(c) <==>
            c in "\t\n\U{0B}\U{0C}\r \U{85}\U{A0}\U{1680}\U{2000}\U{2001}\U{2002}\U{2003}\U{2004}\U{2005}"
               + "\U{2006}\U{2007}\U{2008}\U{2009}\U{200A}\U{2028}\U{2029}\U{202F}\U{205F}\U{3000}"
  {
    var spaces := "\t\n\U{0B}\U{0C}\r \U{85}\U{A0}\U{1680}\U{2000}\U{2001}\U{2002}\U{2003}\U{2004}\U{2005}"
        + "\U{2006}\U{2007}\U{2008}\U{2009}\U{200A}\U{2028}\U{2029}\U{202F}\U{205F}\U{3000}";
    assert spaces[0] == '\t' && spaces[5] == ' ' && spaces[6] == '\U{85}' && spaces[8] == '\U{1680}';
    if '\t' <= c <= '\r' {
      assert spaces[c as int - 9] == c;
    } else if '\U{2000}' <= c <= '\U{200A}' {
      assert spaces[9 + (c as int - 0x2000)] == c;
    } else if IsSpace(c) {
      assert c == spaces[5] || c == spaces[6] || c == spaces[7] || c == spaces[8] || c == spaces[20] || c == spaces[21]
        || c == spaces[22] || c == spaces[23] || c == spaces[24];
    }
  }

  predicate Blank(p: char -> bool, s: string) {
    forall i :: 0 <= i < |s| ==> p(s[i])
  }

  /** Neither end of `s` is in the class, so nothing more can be trimmed. */
  predicate Tight(p: char -> bool, s: string) {
    s == "" || (!p(s[0]) && !p(s[|s| - 1]))
  }

  function TrimLeft(p: char -> bool, s: string): string {
    if s != "" && p(s[0]) then TrimLeft(p, s[1..]) else s
  }

  function TrimRight(p: char -> bool, s: string): string {
    if s != "" && p(s[|s| - 1]) then TrimRight(p, s[..|s| - 1]) else s
  }

  function Trim(p: char -> bool, s: string): string {
    TrimRight(p, TrimLeft(p, s))
  }

  function TrimSpace(s: string): string {
    Trim(IsSpace, s)
  }

  lemma {:induction false} TrimLeftPads(p: char -> bool, s: string) returns (l: string)
    ensures s == l + TrimLeft(p, s) && Blank(p, l)
    ensures TrimLeft(p, s) == "" || !p(TrimLeft(p, s)[0])
  {
    l := "";
    if s != "" && p(s[0]) {
      var l' := TrimLeftPads(p, s[1..]);
      l := [s[0]] + l';
    }
  }

  lemma {:induction false} TrimRightPads(p: char -> bool, s: string) returns (r: string)
    ensures s == TrimRight(p, s) + r && Blank(p, r)
    ensures TrimRight(p, s) == "" || !p(TrimRight(p, s)[|TrimRight(p, s)| - 1])
  {
    r := "";
    if s != "" && p(s[|s| - 1]) {
      var r' := TrimRightPads(p, s[..|s| - 1]);
      r := r' + [s[|s| - 1]];
    }
  }

  /** What is trimmed away is blank, and what is left is tight. */
  lemma {:induction false} TrimPads(p: char -> bool, s: string) returns (l: string, r: string)
    ensures s == l + Trim(p, s) + r
    ensures Blank(p, l) && Blank(p, r) && Tight(p, Trim(p, s))
  {
    l := TrimLeftPads(p, s);
    r := TrimRightPads(p, TrimLeft(p, s));
  }

  lemma {:induction false} TrimLeftDrops(p: char -> bool, l: string, m: string)
    requires Blank(p, l)
    ensures TrimLeft(p, l + m) == TrimLeft(p, m)
  {
    if l == "" {
      assert l + m == m;
    } else {
      assert (l + m)[1..] == l[1..] + m;
      TrimLeftDrops(p, l[1..], m);
    }
  }

  lemma {:induction false} TrimRightDrops(p: char -> bool, m: string, r: string)
    requires Blank(p, r)
    ensures TrimRight(p, m + r) == TrimRight(p, m)
  {
    if r == "" {
      assert m + r == m;
    } else {
      assert (m + r)[..|m + r| - 1] == m + r[..|r| - 1];
      TrimRightDrops(p, m, r[..|r| - 1]);
    }
  }

  /** The only tight string that blank padding turns into `s` is Trim(s). */
  lemma {:induction false} TrimUnique(p: char -> bool, l: string, m: string, r: string)
    requires Blank(p, l) && Blank(p, r) && Tight(p, m)
    ensures Trim(p, l + m + r) == m
  {
    assert l + m + r == l + (m + r);
    TrimLeftDrops(p, l, m + r);
    if m == "" {
      assert m + r == r && r == r + "";
      TrimLeftDrops(p, r, "");
    } else {
      TrimRightDrops(p, m, r);
    }
  }

  /** Trimming sees through blank text added on either side. */
  lemma {:induction false} TrimAround(p: char -> bool, l: string, m: string, r: string)
    requires Blank(p, l) && Blank(p, r)
    ensures Trim(p, l + m + r) == Trim(p, m)
  {
    var l', r' := TrimPads(p, m);
    assert l + m + r == (l + l') + Trim(p, m) + (r' + r);
    TrimUnique(p, l + l', Trim(p, m), r' + r);
  }

  lemma {:induction false} TrimEmptyIffBlank(p: char -> bool, s: string)
    ensures Trim(p, s) == "" <==> Blank(p, s)
  {
    if Blank(p, s) {
      assert s == s + "" + "";
      TrimUnique(p, s, "", "");
    } else {
      var l, r := TrimPads(p, s);
    }
  }

  lemma {:induction false} TrimRightOfCons(p: char -> bool, c: char, s: string)
    requires !p(c)
    ensures TrimRight(p, [c] + s) == [c] + TrimRight(p, s)
  {
    if s != "" && p(s[|s| - 1]) {
      assert ([c] + s)[..|s|] == [c] + s[..|s| - 1];
      TrimRightOfCons(p, c, s[..|s| - 1]);
    }
  }

  lemma {:induction false} TrimLeftEmptyIffBlank(p: char -> bool, s: string)
    ensures TrimLeft(p, s) == "" <==> Blank(p, s)
  {
    var l := TrimLeftPads(p, s);
    if TrimLeft(p, s) == "" {
      assert s == l;
    } else {
      assert s[|l|] == TrimLeft(p, s)[0];
    }
  }

  /** What a text in front contributes to the trimmed whole: itself without its leading blanks. */
  lemma {:induction false} TrimOfFront(p: char -> bool, a: string, b: string)
    requires !Blank(p, b)
    ensures Trim(p, a + b) == if TrimLeft(p, a) == "" then Trim(p, b) else TrimLeft(p, a) + TrimRight(p, b)
    ensures |Trim(p, b)| <= |TrimRight(p, b)|
  {
    TrimLeftEmptyIffBlank(p, a);
    TrimRightCoversTrim(p, b);
    if Blank(p, a) {
      assert a + b == a + b + "";
      TrimAround(p, a, b, "");
    } else {
      var l := TrimLeftPads(p, a);
      var r := TrimRightPads(p, b);
      var middle := TrimLeft(p, a) + TrimRight(p, b);
      assert a + b == l + middle + r;
      TrimUnique(p, l, middle, r);
    }
  }

  lemma {:induction false} TrimRightCoversTrim(p: char -> bool, b: string)
    requires !Blank(p, b)
    ensures TrimRight(p, b) != "" && |Trim(p, b)| <= |TrimRight(p, b)|
  {
    var r := TrimRightPads(p, b);
    var l := TrimLeftPads(p, TrimRight(p, b));
    var t := TrimLeft(p, TrimRight(p, b));
    var i :| 0 <= i < |b| && !p(b[i]);
    assert i < |TrimRight(p, b)| && TrimRight(p, b)[i] == b[i];
    TrimLeftEmptyIffBlank(p, TrimRight(p, b));
    assert TrimRight(p, b)[|TrimRight(p, b)| - 1] == t[|t| - 1];
    assert b == l + t + r;
    TrimUnique(p, l, t, r);
  }

  /** Trimming keeps a last character that is not blank. */
  lemma {:induction false} TrimKeepsEnd(p: char -> bool, a: string, t: string, r: string)
    requires t != "" && !p(t[|t| - 1]) && Blank(p, r)
    ensures Trim(p, a + t + r) != "" && Trim(p, a + t + r)[|Trim(p, a + t + r)| - 1] == t[|t| - 1]
  {
    var body := a + t;
    TrimAround(p, "", body, r);
    assert "" + body + r == a + t + r;
    TrimEmptyIffBlank(p, body);
    var l', r' := TrimPads(p, body);
    assert body[|body| - 1] == t[|t| - 1];
    if r' != "" {
      assert false;
    }
  }

  /** Trimming a text that ends in a line ends as trimming the line does. */
  lemma {:induction false} TrimEndsAsLine(p: char -> bool, before: string, line: string, after: string)
    requires Trim(p, line) != "" && Blank(p, after)
    ensures var t, u := Trim(p, before + line + after), Trim(p, line); t != "" && t[|t| - 1] == u[|u| - 1]
  {
    var u := Trim(p, line);
    var l, r := TrimPads(p, line);
    assert before + line + after == (before + l) + u + (r + after);
    TrimKeepsEnd(p, before + l, u, r + after);
  }

  predicate HasSuffix(s: string, suffix: string) {
    |s| >= |suffix| && s[|s| - |suffix|..] == suffix
  }

  predicate HasPrefix(s: string, prefix: string) {
    |s| >= |prefix| && s[..|prefix|] == prefix
  }

  function Concat(ss: seq<string>): string {
    if ss == [] then "" else ss[0] + Concat(ss[1..])
  }

  // ---- ASCII upper case ----

  function UpperChar(c: char): char {
    if 'a' <= c <= 'z' then (c as int - 32) as char else c
  }

  function Upper(s: string): (r: string)
    ensures |r| == |s|
  {
    if s == "" then "" else [UpperChar(s[0])] + Upper(s[1..])
  }

  /** Each letter a to z moves to its place among A to Z, and nothing else changes. */
  lemma {:induction false} UpperAt(s: string, i: nat)
    requires i < |s|
    ensures 'a' <= s[i] <= 'z' ==> Upper(s)[i] as int - 'A' as int == s[i] as int - 'a' as int
    ensures !('a' <= s[i] <= 'z') ==> Upper(s)[i] == s[i]
  {
    if i > 0 {
      UpperAt(s[1..], i - 1);
    }
  }

  lemma {:induction false} UpperTwice(s: string)
    ensures Upper(Upper(s)) == Upper(s)
  {
    if s != "" {
      UpperTwice(s[1..]);
      assert Upper(s)[1..] == Upper(s[1..]);
    }
  }

  // ---- Splitting at a separator, as strings.Split, and joining ----

  predicate Free(s: string, sep: char) {
    forall i :: 0 <= i < |s| ==> s[i] != sep
  }

  /** The pieces of a string between separators; at least one. */
  function Pieces(s: string, sep: char): (ps: seq<string>)
    ensures ps != []
  {
    if s == "" then [""]
    else
      var rest := Pieces(s[1..], sep);
      if s[0] == sep then [""] + rest else [[s[0]] + rest[0]] + rest[1..]
  }

  function Join(ps: seq<string>, sep: char): string {
    if ps == [] then "" else if |ps| == 1 then ps[0] else ps[0] + [sep] + Join(ps[1..], sep)
  }

  lemma {:induction false} FreePiece(s: string, sep: char)
    requires Free(s, sep)
    ensures Pieces(s, sep) == [s]
  {
    if s != "" {
      FreePiece(s[1..], sep);
      assert [s[0]] + s[1..] == s;
    }
  }

  lemma {:induction false} PiecesOfPair(s: string, t: string, sep: char)
    requires Free(s, sep)
    ensures Pieces(s + [sep] + t, sep) == [s] + Pieces(t, sep)
  {
    var u := s + [sep] + t;
    if s == "" {
      assert u[1..] == t;
    } else {
      assert u[1..] == s[1..] + [sep] + t;
      PiecesOfPair(s[1..], t, sep);
      assert [s[0]] + s[1..] == s;
    }
  }

  lemma {:induction false} PiecesAreFree(s: string, sep: char)
    ensures forall i :: 0 <= i < |Pieces(s, sep)| ==> Free(Pieces(s, sep)[i], sep)
  {
    if s != "" {
      PiecesAreFree(s[1..], sep);
    }
  }

  /** Joining undoes splitting. */
  lemma {:induction false} JoinOfPieces(s: string, sep: char)
    ensures Join(Pieces(s, sep), sep) == s
  {
    if s != "" {
      var rest := Pieces(s[1..], sep);
      JoinOfPieces(s[1..], sep);
      assert s == [s[0]] + s[1..];
      if s[0] == sep {
        assert ([""] + rest)[1..] == rest;
      } else {
        assert ([[s[0]] + rest[0]] + rest[1..])[1..] == rest[1..];
      }
    }
  }

  /** Splitting undoes joining when no piece holds the separator. */
  lemma {:induction false} PiecesOfJoin(ps: seq<string>, sep: char)
    requires ps != [] && forall i :: 0 <= i < |ps| ==> Free(ps[i], sep)
    ensures Pieces(Join(ps, sep), sep) == ps
  {
    if |ps| == 1 {
      FreePiece(ps[0], sep);
    } else {
      PiecesOfJoin(ps[1..], sep);
      PiecesOfPair(ps[0], Join(ps[1..], sep), sep);
    }
  }
}
