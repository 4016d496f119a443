/** The lines of a text, each ended by a newline but perhaps the last. */
module TextLines {
  import Q = Seqs
  import S = Strings

  predicate NoNewline(s: string) {
    S.Free(s, '\n')
  }

  predicate Terminated(s: string) {
    s == "" || s[|s| - 1] == '\n'
  }

  /** Puts a character, not a newline, in front of the first line. */
  function Prepend(c: char, ls: seq<string>): seq<string> {
    if ls == [] then [[c]] else [[c] + ls[0]] + ls[1..]
  }

  /** The lines of a text; a last line without its newline still counts. */
  function Lines(s: string): (ls: seq<string>)
    ensures ls == [] <==> s == ""
  {
    if s == "" then []
    else if s[0] == '\n' then [""] + Lines(s[1..])
    else Prepend(s[0], Lines(s[1..]))
  }

  function Unlines(ls: seq<string>): string {
    if ls == [] then "" else ls[0] + "\n" + Unlines(ls[1..])
  }

  lemma {:induction false} PrependJoins(c: char, first: string, rest: seq<string>)
    ensures Prepend(c, [first] + rest) == [[c] + first] + rest
  {
    assert ([first] + rest)[1..] == rest;
  }

  lemma {:induction false} UnlinesPrepend(c: char, ls: seq<string>)
    ensures Unlines(Prepend(c, ls)) == if ls == [] then [c] + "\n" else [c] + Unlines(ls)
  {
    if ls == [] {
      assert [[c]][1..] == [];
    } else {
      assert Prepend(c, ls)[1..] == ls[1..];
      assert [c] + ls[0] + "\n" + Unlines(ls[1..]) == [c] + (ls[0] + "\n" + Unlines(ls[1..]));
    }
  }

  lemma {:induction false} UnlinesCons(line: string, ls: seq<string>)
    ensures Unlines([line] + ls) == line + "\n" + Unlines(ls)
  {
    assert ([line] + ls)[1..] == ls;
  }

  /** The text with its last line ended. */
  function Ended(s: string): string {
    if Terminated(s) then s else s + "\n"
  }

  lemma {:induction false} EndedCons(c: char, rest: string)
    ensures Ended([c] + rest) == if rest == "" && c != '\n' then [c] + "\n" else [c] + Ended(rest)
  {
    if rest != "" {
      assert ([c] + rest)[|rest|] == rest[|rest| - 1];
      Q.Associates([c], rest, "\n");
    } else {
      assert [c] + rest == [c];
    }
  }

  /** Joining the lines of a text gives it back, up to a missing last newline. */
  lemma {:induction false} LinesRejoin(s: string)
    ensures Unlines(Lines(s)) == Ended(s)
  {
    if s != "" {
      var c, rest := s[0], s[1..];
      LinesRejoin(rest);
      assert s == [c] + rest;
      EndedCons(c, rest);
      if c == '\n' {
        UnlinesCons("", Lines(rest));
      } else {
        UnlinesPrepend(c, Lines(rest));
      }
    }
  }

  lemma {:induction false} LinesAreNewlineFree(s: string)
    ensures forall i :: 0 <= i < |Lines(s)| ==> NoNewline(Lines(s)[i])
  {
    if s != "" {
      LinesAreNewlineFree(s[1..]);
    }
  }

  /** Splitting undoes joining, so the lines of a terminated text are the only newline-free ones that join to it. */
  lemma {:induction false} LinesOfUnlines(ls: seq<string>)
    requires forall i :: 0 <= i < |ls| ==> NoNewline(ls[i])
    ensures Lines(Unlines(ls)) == ls
  {
    if ls != [] {
      LinesOfUnlines(ls[1..]);
      LineBreak(ls[0], Unlines(ls[1..]));
      assert ls == [ls[0]] + ls[1..];
    }
  }

  lemma {:induction false} LineBreak(w: string, t: string)
    requires NoNewline(w)
    ensures Lines(w + "\n" + t) == [w] + Lines(t)
  {
    if w == "" {
      assert (w + "\n" + t)[1..] == t;
    } else {
      assert (w + "\n" + t)[1..] == w[1..] + "\n" + t;
      LineBreak(w[1..], t);
      assert w == [w[0]] + w[1..];
    }
  }

  lemma {:induction false} LastLine(w: string)
    requires NoNewline(w) && w != ""
    ensures Lines(w) == [w]
  {
    if |w| == 1 {
      assert w[1..] == "" && w == [w[0]];
    } else {
      LastLine(w[1..]);
      assert [w[1..]] == [w[1..]] + [] && w == [w[0]] + w[1..];
      PrependJoins(w[0], w[1..], []);
    }
  }

  lemma {:induction false} LinesCons(c: char, t: string)
    requires c != '\n'
    ensures Lines([c] + t) == Prepend(c, Lines(t))
  {
    assert ([c] + t)[1..] == t;
  }

  /** Text in front of a line joins that line. */
  lemma {:induction false} GlueLine(w: string, b: string)
    requires NoNewline(w) && b != ""
    ensures Lines(w + b) == [w + Lines(b)[0]] + Lines(b)[1..]
  {
    var first, rest := Lines(b)[0], Lines(b)[1..];
    if w == "" {
      assert w + b == b && w + first == first;
    } else {
      var c, v := w[0], w[1..];
      assert w == [c] + v;
      GlueLine(v, b);
      Q.Associates([c], v, b);
      LinesCons(c, v + b);
      PrependJoins(c, v + first, rest);
      Q.Associates([c], v, first);
    }
  }

  lemma {:induction false} PrependAppend(c: char, x: seq<string>, y: seq<string>)
    requires x != []
    ensures Prepend(c, x + y) == Prepend(c, x) + y
  {
    assert (x + y)[1..] == x[1..] + y;
  }

  lemma {:induction false} LinesAppend(a: string, b: string)
    requires Terminated(a)
    ensures Lines(a + b) == Lines(a) + Lines(b)
  {
    if a == "" {
      assert a + b == b;
    } else {
      var c, rest := a[0], a[1..];
      assert a == [c] + rest && a + b == [c] + (rest + b);
      LinesAppend(rest, b);
      if c == '\n' {
        assert (a + b)[1..] == rest + b;
        Q.Associates([""], Lines(rest), Lines(b));
      } else {
        LinesCons(c, rest);
        LinesCons(c, rest + b);
        PrependAppend(c, Lines(rest), Lines(b));
      }
    }
  }
}
