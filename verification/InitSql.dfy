/**
  The SQL script splitter (common/dbs.go): statements end at a line that ends in `;`,
  comment and blank lines are dropped. Lines are as the scanner delivers them.
*/
module InitSql {
  import Q = Seqs
  import S = Strings
  import TextLines

  // ---- Splitting a list after each closing element ----

  datatype Split<T> = Split(groups: seq<seq<T>>, rest: seq<T>)

  function Add<T>(closes: T -> bool, s: Split<T>, x: T): Split<T> {
    if closes(x) then Split(s.groups + [s.rest + [x]], []) else Split(s.groups, s.rest + [x])
  }

  function SplitOf<T>(closes: T -> bool, xs: seq<T>): Split<T> {
    if xs == [] then Split([], []) else Add(closes, SplitOf(closes, xs[..|xs| - 1]), xs[|xs| - 1])
  }

  function Flat<T>(groups: seq<seq<T>>): seq<T> {
    if groups == [] then [] else Flat(groups[..|groups| - 1]) + groups[|groups| - 1]
  }

  predicate Open<T>(closes: T -> bool, xs: seq<T>) {
    forall i :: 0 <= i < |xs| ==> !closes(xs[i])
  }

  /** Not empty, closed by its last element and by no earlier one. */
  predicate IsGroup<T>(closes: T -> bool, group: seq<T>) {
    group != [] && closes(group[|group| - 1]) && Open(closes, group[..|group| - 1])
  }

  predicate AreGroups<T>(closes: T -> bool, groups: seq<seq<T>>) {
    forall i :: 0 <= i < |groups| ==> IsGroup(closes, groups[i])
  }

  /** Each element lands in exactly one group, in order, or in the rest, where nothing closes. */
  ghost predicate ProperSplit<T>(closes: T -> bool, xs: seq<T>, s: Split<T>) {
    Flat(s.groups) + s.rest == xs && AreGroups(closes, s.groups) && Open(closes, s.rest)
  }

  lemma {:induction false} FlatSnoc<T>(groups: seq<seq<T>>, g: seq<T>)
    ensures Flat(groups + [g]) == Flat(groups) + g
  {
    assert (groups + [g])[..|groups|] == groups;
  }

  lemma {:induction false} ProperStep<T>(closes: T -> bool, xs: seq<T>, s: Split<T>, x: T)
    requires ProperSplit(closes, xs, s)
    ensures ProperSplit(closes, xs + [x], Add(closes, s, x))
  {
    Q.Associates(Flat(s.groups), s.rest, [x]);
    if closes(x) {
      var g := s.rest + [x];
      assert g[..|g| - 1] == s.rest;
      FlatSnoc(s.groups, g);
      assert Flat(s.groups + [g]) + [] == Flat(s.groups + [g]);
    }
  }

  lemma {:induction false} SplitIsProper<T>(closes: T -> bool, xs: seq<T>)
    ensures ProperSplit(closes, xs, SplitOf(closes, xs))
  {
    if xs == [] {
      assert Flat<T>([]) + [] == xs;
    } else {
      var front, x := xs[..|xs| - 1], xs[|xs| - 1];
      SplitIsProper(closes, front);
      ProperStep(closes, front, SplitOf(closes, front), x);
      assert front + [x] == xs;
    }
  }

  /** A proper split of a list with a last element is one step from a proper split of the list before it. */
  lemma {:induction false} StepBack<T>(closes: T -> bool, xs: seq<T>, x: T, s: Split<T>) returns (s': Split<T>)
    requires ProperSplit(closes, xs + [x], s)
    ensures ProperSplit(closes, xs, s') && s == Add(closes, s', x)
  {
    if s.rest != [] {
      var less, last := s.rest[..|s.rest| - 1], s.rest[|s.rest| - 1];
      s' := Split(s.groups, less);
      assert s.rest == less + [last];
      Q.Associates(Flat(s.groups), less, [last]);
      SnocIsUnique(Flat(s.groups) + less, last, xs, x);
    } else {
      assert Flat(s.groups) + [] == Flat(s.groups);
      assert s.groups != [];
      var groups, g := s.groups[..|s.groups| - 1], s.groups[|s.groups| - 1];
      assert IsGroup(closes, g);
      var less, last := g[..|g| - 1], g[|g| - 1];
      s' := Split(groups, less);
      assert g == less + [last] && s.groups == groups + [g];
      Q.Associates(Flat(groups), less, [last]);
      SnocIsUnique(Flat(groups) + less, last, xs, x);
    }
  }

  lemma {:induction false} SnocIsUnique<T>(a: seq<T>, x: T, b: seq<T>, y: T)
    requires a + [x] == b + [y]
    ensures a == b && x == y
  {
    assert (a + [x])[..|a|] == a && (b + [y])[..|b|] == b;
    assert (a + [x])[|a|] == x;
  }

  lemma {:induction false} EmptySplit<T>(closes: T -> bool, s: Split<T>)
    requires ProperSplit(closes, [], s)
    ensures s == Split([], [])
  {
    if s.groups != [] {
      assert false;
    }
  }

  /** There is no other proper split. */
  lemma {:induction false} SplitIsUnique<T>(closes: T -> bool, xs: seq<T>, s: Split<T>)
    ensures ProperSplit(closes, xs, s) <==> s == SplitOf(closes, xs)
  {
    SplitIsProper(closes, xs);
    if ProperSplit(closes, xs, s) {
      if xs == [] {
        EmptySplit(closes, s);
      } else {
        var front, x := xs[..|xs| - 1], xs[|xs| - 1];
        assert front + [x] == xs;
        var s' := StepBack(closes, front, x, s);
        SplitIsUnique(closes, front, s');
      }
    }
  }

  lemma {:induction false} SplitStep<T>(closes: T -> bool, xs: seq<T>, x: T)
    ensures SplitOf(closes, xs + [x]) == Add(closes, SplitOf(closes, xs), x)
  {
    assert (xs + [x])[..|xs|] == xs;
  }

  // ---- The lines of a script ----

  predicate Skipped(line: string) {
    var trim := S.TrimSpace(line);
    trim == "" || S.HasPrefix(trim, "--") || S.HasPrefix(trim, "#")
  }

  predicate Closes(line: string) {
    S.HasSuffix(S.TrimSpace(line), ";")
  }

  function Kept(lines: seq<string>): (ks: seq<string>)
    ensures forall k :: k in ks ==> !Skipped(k)
  {
    if lines == [] then []
    else Kept(lines[..|lines| - 1]) + if Skipped(lines[|lines| - 1]) then [] else [lines[|lines| - 1]]
  }

  lemma {:induction false} KeptStep(lines: seq<string>, i: nat)
    requires i < |lines|
    ensures Kept(lines[..i + 1]) == Kept(lines[..i]) + if Skipped(lines[i]) then [] else [lines[i]]
  {
    assert lines[..i + 1][..i] == lines[..i];
  }

  /** What the string builder holds after these lines. */
  function Text(lines: seq<string>): string {
    if lines == [] then "" else Text(lines[..|lines| - 1]) + lines[|lines| - 1] + "\n"
  }

  lemma {:induction false} TextStep(lines: seq<string>, line: string)
    ensures Text(lines + [line]) == Text(lines) + line + "\n"
  {
    assert (lines + [line])[..|lines|] == lines;
  }

  function Statement(lines: seq<string>): string {
    S.TrimSpace(Text(lines))
  }

  function StatementsOf(groups: seq<seq<string>>): seq<string> {
    if groups == [] then [] else StatementsOf(groups[..|groups| - 1]) + [Statement(groups[|groups| - 1])]
  }

  lemma {:induction false} StatementAt(groups: seq<seq<string>>, i: nat)
    requires i < |groups|
    ensures |StatementsOf(groups)| == |groups| && StatementsOf(groups)[i] == Statement(groups[i])
  {
    var front := groups[..|groups| - 1];
    if i < |front| {
      StatementAt(front, i);
    } else if front != [] {
      StatementAt(front, 0);
    }
  }

  function AllStatements(s: Split<string>): seq<string> {
    StatementsOf(s.groups) + if s.rest == [] then [] else [Statement(s.rest)]
  }

  /** Every statement of the script: the closed ones, and what is left at the end. */
  function Statements(lines: seq<string>): seq<string> {
    AllStatements(SplitOf(Closes, Kept(lines)))
  }

  /** A statement whose last line is kept is not empty, and ends as that line does. */
  lemma {:induction false} StatementEnd(lines: seq<string>, line: string)
    requires !Skipped(line)
    ensures Statement(lines + [line]) != ""
    ensures Closes(line) <==> Statement(lines + [line])[|Statement(lines + [line])| - 1] == ';'
  {
    TextStep(lines, line);
    TrimmedEnd(Text(lines), line);
  }

  lemma {:induction false} TrimmedEnd(before: string, line: string)
    requires !Skipped(line)
    ensures var t := S.TrimSpace(before + line + "\n"); t != "" && (Closes(line) <==> t[|t| - 1] == ';')
  {
    var t := S.TrimSpace(line);
    S.TrimEndsAsLine(S.IsSpace, before, line, "\n");
    assert t[|t| - 1..] == [t[|t| - 1]];
  }

  /** Blank lines are dropped, and lines that begin, after blanks, with `#` or `--`; no others. */
  lemma {:induction false} KeptIs(lines: seq<string>, line: string)
    ensures var t := S.TrimLeft(S.IsSpace, line);
            Kept(lines + [line]) ==
            if t == "" || t[0] == '#' || (|t| >= 2 && t[0] == '-' && t[1] == '-') then Kept(lines)
            else Kept(lines) + [line]
  {
    var all, t, u := lines + [line], S.TrimLeft(S.IsSpace, line), S.TrimSpace(line);
    assert all[..|lines|] == lines && Kept(lines) + [] == Kept(lines);
    var r := S.TrimRightPads(S.IsSpace, t);
    var l := S.TrimLeftPads(S.IsSpace, line);
    assert t == u + r;
    S.TrimEmptyIffBlank(S.IsSpace, line);
    S.TrimLeftEmptyIffBlank(S.IsSpace, line);
    if u != "" {
      assert u[0] == t[0] && u[..1] == [u[0]] && (|u| >= 2 ==> u[1] == t[1] && u[..2] == [u[0], u[1]]);
      assert |u| == 1 && |t| >= 2 ==> t[1] == r[0];
    }
  }

  /** A line ends its statement exactly when its last character that is not blank is `;`. */
  lemma {:induction false} ClosesIff(line: string)
    ensures var t := S.TrimRight(S.IsSpace, line); Closes(line) <==> t != "" && t[|t| - 1] == ';'
  {
    var t, u := S.TrimRight(S.IsSpace, line), S.TrimSpace(line);
    if S.Blank(S.IsSpace, line) {
      S.TrimEmptyIffBlank(S.IsSpace, line);
      S.TrimRightDrops(S.IsSpace, "", line);
      assert "" + line == line;
    } else {
      S.TrimRightCoversTrim(S.IsSpace, line);
      S.TrimEmptyIffBlank(S.IsSpace, line);
      var r := S.TrimRightPads(S.IsSpace, line);
      S.TrimKeepsEnd(S.IsSpace, "", t, r);
      assert "" + t + r == line && u[|u| - 1..] == [u[|u| - 1]];
    }
  }

  /** A statement is its lines, each ended, without the blanks around them all. */
  lemma {:induction false} StatementIs(lines: seq<string>)
    ensures Text(lines) == TextLines.Unlines(lines)
    ensures exists l, r :: S.Blank(S.IsSpace, l) && S.Blank(S.IsSpace, r) && S.Tight(S.IsSpace, Statement(lines))
                           && TextLines.Unlines(lines) == l + Statement(lines) + r
  {
    TextIsUnlines(lines);
    var l, r := S.TrimPads(S.IsSpace, Text(lines));
  }

  lemma {:induction false} TextIsUnlines(lines: seq<string>)
    ensures Text(lines) == TextLines.Unlines(lines)
  {
    if lines != [] {
      var front, line := lines[..|lines| - 1], lines[|lines| - 1];
      TextIsUnlines(front);
      assert lines == front + [line];
      UnlinesSnoc(front, line);
    }
  }

  lemma {:induction false} UnlinesSnoc(lines: seq<string>, line: string)
    ensures TextLines.Unlines(lines + [line]) == TextLines.Unlines(lines) + line + "\n"
  {
    if lines == [] {
      assert lines + [line] == [line] && TextLines.Unlines([line][1..]) == "";
      assert line + "\n" + "" == line + "\n" == "" + line + "\n";
    } else {
      var rest := TextLines.Unlines(lines[1..]);
      UnlinesSnoc(lines[1..], line);
      assert (lines + [line])[1..] == lines[1..] + [line];
      assert lines[0] + "\n" + (rest + line + "\n") == (lines[0] + "\n" + rest) + line + "\n";
    }
  }

  // ---- Execution ----

  datatype Report = Report(executed: seq<string>, failed: bool)

  /** The first statement that fails, or how many there are. */
  function FirstFailure(ss: seq<string>, failing: set<nat>, k: nat): (n: nat)
    requires k <= |ss|
    ensures k <= n <= |ss| && (n < |ss| ==> n in failing) && forall j :: k <= j < n ==> j !in failing
    decreases |ss| - k
  {
    if k == |ss| || k in failing then k else FirstFailure(ss, failing, k + 1)
  }

  function Execution(ss: seq<string>, failing: set<nat>, scanError: bool): Report {
    var n := FirstFailure(ss, failing, 0);
    if n < |ss| then Report(ss[..n + 1], true) else Report(ss, scanError)
  }

  /** None of the first n executions fails. */
  predicate NoneFails(failing: set<nat>, n: nat) {
    n == 0 || (NoneFails(failing, n - 1) && n - 1 !in failing)
  }

  lemma {:induction false} NoneFailsMeans(failing: set<nat>, n: nat)
    ensures NoneFails(failing, n) <==> forall j :: 0 <= j < n ==> j !in failing
  {
    if n > 0 {
      NoneFailsMeans(failing, n - 1);
    }
  }

  lemma {:induction false} AllSucceed(ss: seq<string>, failing: set<nat>, scanError: bool)
    requires NoneFails(failing, |ss|)
    ensures Execution(ss, failing, scanError) == Report(ss, scanError)
  {
    NoneFailsMeans(failing, |ss|);
  }

  lemma {:induction false} FailsAt(ss: seq<string>, failing: set<nat>, scanError: bool, executed: seq<string>)
    requires executed != [] && executed <= ss && |executed| - 1 in failing && NoneFails(failing, |executed| - 1)
    ensures Execution(ss, failing, scanError) == Report(executed, true)
  {
    NoneFailsMeans(failing, |executed| - 1);
    var n := FirstFailure(ss, failing, 0);
    assert n == |executed| - 1;
  }

  lemma {:induction false} GroupsStep(groups: seq<seq<string>>, g: seq<string>)
    ensures StatementsOf(groups + [g]) == StatementsOf(groups) + [Statement(g)]
  {
    assert (groups + [g])[..|groups|] == groups;
  }

  lemma {:induction false} NextLineAdds(lines: seq<string>, n: nat)
    requires n < |lines|
    ensures StatementsOf(SplitOf(Closes, Kept(lines[..n])).groups) <=
            StatementsOf(SplitOf(Closes, Kept(lines[..n + 1])).groups)
  {
    var kept := Kept(lines[..n]);
    KeptStep(lines, n);
    if Skipped(lines[n]) {
      assert kept + [] == kept;
    } else {
      var s := SplitOf(Closes, kept);
      SplitStep(Closes, kept, lines[n]);
      GroupsStep(s.groups, s.rest + [lines[n]]);
    }
  }

  /** Later lines only add statements. */
  lemma {:induction false} StatementsGrow(lines: seq<string>, n: nat)
    requires n <= |lines|
    ensures StatementsOf(SplitOf(Closes, Kept(lines[..n])).groups) <= Statements(lines)
    decreases |lines| - n
  {
    if n == |lines| {
      assert lines[..n] == lines;
    } else {
      NextLineAdds(lines, n);
      StatementsGrow(lines, n + 1);
    }
  }

  /** What one kept line does to the statements so far and to the string builder. */
  lemma {:induction false} LineStep(s: Split<string>, line: string)
    requires !Skipped(line)
    ensures var s', stmt := Add(Closes, s, line), S.TrimSpace(Text(s.rest) + line + "\n");
            && (Closes(line) ==>
                  StatementsOf(s'.groups) == StatementsOf(s.groups) + [stmt] && s'.rest == [] && stmt != "")
            && (!Closes(line) ==>
                  s'.groups == s.groups && Text(s'.rest) == Text(s.rest) + line + "\n" && s'.rest == s.rest + [line])
  {
    TextStep(s.rest, line);
    StatementEnd(s.rest, line);
    GroupsStep(s.groups, s.rest + [line]);
  }

  /** The last line left over was kept. */
  predicate RestKept(s: Split<string>) {
    s.rest == [] || !Skipped(s.rest[|s.rest| - 1])
  }

  lemma {:induction false} RestIsAStatement(s: Split<string>)
    requires RestKept(s)
    ensures var rest := S.TrimSpace(Text(s.rest));
            AllStatements(s) == if rest == "" then StatementsOf(s.groups) else StatementsOf(s.groups) + [rest]
  {
    if s.rest != [] {
      StatementEnd(s.rest[..|s.rest| - 1], s.rest[|s.rest| - 1]);
      assert s.rest == s.rest[..|s.rest| - 1] + [s.rest[|s.rest| - 1]];
    } else {
      assert StatementsOf(s.groups) + [] == StatementsOf(s.groups);
    }
  }

  /** After n lines these statements are closed, and the string builder holds the rest. */
  predicate Reached(lines: seq<string>, n: nat, closed: seq<string>, sb: string)
    requires n <= |lines|
  {
    var s := SplitOf(Closes, Kept(lines[..n]));
    closed == StatementsOf(s.groups) && sb == Text(s.rest)
  }

  /** Takes one line into the string builder, and hands out the statement it closes, if any. */
  method ReadLine(lines: seq<string>, i: nat, ghost closed: seq<string>, sb: string) returns (sb': string, stmt: string)
    requires i < |lines| && Reached(lines, i, closed, sb)
    ensures Reached(lines, i + 1, if stmt == "" then closed else closed + [stmt], sb')
  {
    var line := lines[i];
    sb', stmt := sb, "";
    var trim := S.TrimSpace(line);
    KeptStep(lines, i);
    if trim == "" || S.HasPrefix(trim, "--") || S.HasPrefix(trim, "#") {
      assert Kept(lines[..i]) + [] == Kept(lines[..i]);
      return;
    }
    SplitStep(Closes, Kept(lines[..i]), line);
    LineStep(SplitOf(Closes, Kept(lines[..i])), line);
    sb' := sb + line + "\n";
    if S.HasSuffix(trim, ";") {
      stmt := S.TrimSpace(sb');
      sb' := "";
    }
  }

  lemma {:induction false} ReachedIsPrefix(lines: seq<string>, n: nat, closed: seq<string>, sb: string)
    requires n <= |lines| && Reached(lines, n, closed, sb)
    ensures closed <= Statements(lines)
    ensures n == |lines| ==> Statements(lines) == if S.TrimSpace(sb) == "" then closed else closed + [S.TrimSpace(sb)]
  {
    StatementsGrow(lines, n);
    if n == |lines| {
      assert lines[..n] == lines;
      var s := SplitOf(Closes, Kept(lines));
      SplitIsProper(Closes, Kept(lines));
      assert s.rest != [] ==> s.rest[|s.rest| - 1] in Flat(s.groups) + s.rest;
      RestIsAStatement(s);
    }
  }

  /** None of these executions failed, or the last one did and no earlier one. */
  predicate StoppedRight(failing: set<nat>, n: nat, failed: bool) {
    if failed then n > 0 && n - 1 in failing && NoneFails(failing, n - 1) else NoneFails(failing, n)
  }

  /** Executes a statement after n others. */
  method Exec(failing: set<nat>, executed: seq<string>, stmt: string) returns (executed': seq<string>, failed: bool)
    requires NoneFails(failing, |executed|)
    ensures executed' == executed + [stmt] && StoppedRight(failing, |executed'|, failed)
  {
    executed' := executed + [stmt];
    failed := |executed| in failing;
  }

  /** The line loop: executes each statement as it closes, and stops at the first that fails. */
  method RunLines(lines: seq<string>, failing: set<nat>) returns (executed: seq<string>, sb: string, failed: bool)
    ensures StoppedRight(failing, |executed|, failed)
    ensures executed <= Statements(lines)
    ensures !failed ==> Statements(lines) == if S.TrimSpace(sb) == "" then executed else executed + [S.TrimSpace(sb)]
  {
    executed, sb, failed := [], "", false;
    var i := 0;
    while i < |lines| && !failed
      invariant 0 <= i <= |lines|
      invariant Reached(lines, i, executed, sb)
      invariant StoppedRight(failing, |executed|, failed)
    {
      var stmt;
      sb, stmt := ReadLine(lines, i, executed, sb);
      if stmt != "" {
        executed, failed := Exec(failing, executed, stmt);
      }
      i := i + 1;
    }
    ReachedIsPrefix(lines, i, executed, sb);
  }

  /**
    Executes the statements in order up to the first that fails, that one included. Statement
    number k fails when k is in failing; scanError is the scanner's own error after the last line.
  */
  method RunInitSQL(lines: seq<string>, failing: set<nat>, scanError: bool) returns (r: Report)
    ensures r == Execution(Statements(lines), failing, scanError)
  {
    var executed, sb, failed := RunLines(lines, failing);
    if failed {
      FailsAt(Statements(lines), failing, scanError, executed);
      return Report(executed, true);
    }
    var rest := S.TrimSpace(sb);
    if rest != "" {
      executed, failed := Exec(failing, executed, rest);
      if failed {
        FailsAt(executed, failing, scanError, executed);
        return Report(executed, true);
      }
    }
    AllSucceed(executed, failing, scanError);
    return Report(executed, scanError);
  }

  lemma {:induction false} GroupIsKept(groups: seq<seq<string>>, i: nat)
    requires i < |groups|
    ensures forall line :: line in groups[i] ==> line in Flat(groups)
  {
    if i + 1 < |groups| {
      GroupIsKept(groups[..|groups| - 1], i);
    }
  }

  lemma {:induction false} GroupEnds(lines: seq<string>, s: Split<string>, i: nat)
    requires ProperSplit(Closes, Kept(lines), s) && i < |s.groups|
    ensures var t := Statement(s.groups[i]); t != "" && t[|t| - 1] == ';'
  {
    var g := s.groups[i];
    var front, line := g[..|g| - 1], g[|g| - 1];
    assert g == front + [line] && Closes(line);
    assert !Skipped(line) by {
      GroupIsKept(s.groups, i);
      assert line in g;
      assert line in Flat(s.groups) + s.rest;
    }
    StatementEnd(front, line);
  }

  /** Each statement before the last ends in `;`. */
  lemma {:induction false} StatementsEndInSemicolon(lines: seq<string>, i: nat)
    requires i + 1 < |Statements(lines)|
    ensures var t := Statements(lines)[i]; t != "" && t[|t| - 1] == ';'
  {
    var s := SplitOf(Closes, Kept(lines));
    SplitIsProper(Closes, Kept(lines));
    if s.groups != [] {
      StatementAt(s.groups, 0);
    }
    StatementAt(s.groups, i);
    GroupEnds(lines, s, i);
  }

  /**
    A run in which none of the script's statements fails executes one statement for each group of the one proper
    split of the kept lines, in file order, then the rest.
  */
  lemma {:induction false} CleanRunExecutesEveryLine(lines: seq<string>, failing: set<nat>, scanError: bool,
              s: Split<string>)
    requires ProperSplit(Closes, Kept(lines), s) && NoneFails(failing, |Statements(lines)|)
    ensures Execution(Statements(lines), failing, scanError) == Report(AllStatements(s), scanError)
  {
    SplitIsUnique(Closes, Kept(lines), s);
    AllSucceed(Statements(lines), failing, scanError);
  }

  /**
    What was executed is a prefix of the statements, of which only the last one failed. If any statement is
    to fail, the run stops there and fails; otherwise all are executed, and only the scanner can have failed.
  */
  lemma {:induction false} FailingRunExecutesPrefix(ss: seq<string>, failing: set<nat>, scanError: bool)
    ensures var r := Execution(ss, failing, scanError);
            && r.executed <= ss
            && (forall j :: 0 <= j < |r.executed| - 1 ==> j !in failing)
            && (if exists j :: 0 <= j < |ss| && j in failing then
                  r.failed && r.executed != [] && |r.executed| - 1 in failing
                else r == Report(ss, scanError))
  {
    var n := FirstFailure(ss, failing, 0);
    if n < |ss| {
      assert |ss[..n + 1]| - 1 in failing;
    }
  }
}
