/**
  The banner font (bootstrap/font_embed.go): how a scanner delivers the lines of its text, how
  they are read, and which fonts survive being printed and read back. Text is ASCII.
*/
module DoomFont {
  import opened Options
  import opened TextLines
  import S = Strings

  // ---- The scanner ----

  /** A line without a carriage return at its end. */
  function DropReturn(line: string): string {
    if line != "" && line[|line| - 1] == '\r' then line[..|line| - 1] else line
  }

  function DropReturns(ls: seq<string>): (rs: seq<string>)
    ensures |rs| == |ls| && forall i :: 0 <= i < |ls| ==> rs[i] == DropReturn(ls[i])
  {
    seq(|ls|, i requires 0 <= i < |ls| => DropReturn(ls[i]))
  }

  /** The lines a scanner delivers, without their ends. */
  function Scanned(text: string): seq<string> {
    DropReturns(Lines(text))
  }

  // ---- Reading a font ----

  type Font = map<char, string>

  function Strip(s: string): string {
    S.TrimRight(c => c == '\n', s)
  }

  function FontNameToRune(name: string): Option<char> {
    if name == "space" then Some(' ')
    else if name == "dash" then Some('-')
    else if |name| == 1 then Some(name[0])
    else None
  }

  /** The parser's variables: the cache, the open entry if there is one, and its lines. */
  datatype Parser = Parser(cache: Font, current: Option<char>, lines: seq<string>)

  function Flush(p: Parser): Parser {
    if p.current.None? then p else Parser(p.cache[p.current.value := Strip(S.Join(p.lines, '\n'))], None, [])
  }

  predicate IsComment(line: string) {
    S.HasPrefix(line, "#")
  }

  predicate IsHeader(line: string) {
    S.HasPrefix(line, ">> ")
  }

  function Step(p: Parser, line: string): Parser {
    if IsComment(line) then p
    else if IsHeader(line) then
      match FontNameToRune(S.TrimSpace(line[3..]))
      case None => Flush(p)
      case Some(c) => Parser(Flush(p).cache, Some(c), [])
    else if p.current.Some? then p.(lines := p.lines + [line])
    else p
  }

  function Steps(p: Parser, lines: seq<string>): Parser
    decreases |lines|
  {
    if lines == [] then p else Steps(Step(p, lines[0]), lines[1..])
  }

  const START := Parser(map[], None, [])

  function Load(lines: seq<string>): Font {
    Flush(Steps(START, lines)).cache
  }

  method LoadDoomFont(lines: seq<string>) returns (font: Font)
    ensures font == Load(lines)
  {
    font := map[];
    var currentChar, currentLines, hasChar := ' ', [], false;
    ghost var p := START;
    for i := 0 to |lines|
      invariant p == Parser(font, if hasChar then Some(currentChar) else None, currentLines)
      invariant Steps(START, lines) == Steps(p, lines[i..])
    {
      var line := lines[i];
      assert lines[i..][1..] == lines[i + 1..];
      p := Step(p, line);
      if S.HasPrefix(line, "#") {
        continue;
      }
      if S.HasPrefix(line, ">> ") {
        if hasChar {
          font := font[currentChar := Strip(S.Join(currentLines, '\n'))];
          currentLines, hasChar := [], false;
        }
        var ch := FontNameToRune(S.TrimSpace(line[3..]));
        if ch.None? {
          continue;
        }
        currentChar, currentLines, hasChar := ch.value, [], true;
        continue;
      }
      if hasChar {
        currentLines := currentLines + [line];
      }
    }
    if hasChar {
      font := font[currentChar := Strip(S.Join(currentLines, '\n'))];
    }
  }

  // ---- Printing a font, and reading it back ----

  function NameOf(c: char): string {
    if c == ' ' then "space" else if c == '-' then "dash" else [c]
  }

  function Header(c: char): string {
    ">> " + NameOf(c)
  }

  datatype Glyph = Glyph(c: char, art: string)

  function PrintGlyph(g: Glyph): seq<string> {
    [Header(g.c)] + S.Pieces(g.art, '\n')
  }

  function PrintFont(gs: seq<Glyph>): seq<string> {
    if gs == [] then [] else PrintGlyph(gs[0]) + PrintFont(gs[1..])
  }

  function PrintText(gs: seq<Glyph>): string {
    Unlines(PrintFont(gs))
  }

  function FontOf(gs: seq<Glyph>, font: Font): Font {
    if gs == [] then font else FontOf(gs[1..], font[gs[0].c := gs[0].art])
  }

  /** A character that a name can hold. */
  predicate Nameable(c: char) {
    c == ' ' || !S.IsSpace(c)
  }

  predicate Plain(line: string) {
    !IsComment(line) && !IsHeader(line)
  }

  predicate AllPlain(ls: seq<string>) {
    forall i :: 0 <= i < |ls| ==> Plain(ls[i])
  }

  /** No line reads as a comment or a header, and there is no trailing newline. */
  predicate Readable(art: string) {
    (art == "" || art[|art| - 1] != '\n') && AllPlain(S.Pieces(art, '\n'))
  }

  /** And no line ends in a carriage return. */
  predicate Printable(art: string) {
    Readable(art) && DropReturns(S.Pieces(art, '\n')) == S.Pieces(art, '\n')
  }

  /**
    What a line does that starts with `#` or `>> `: the first nothing, whatever follows; the second ends the
    open glyph and opens that of the character it names, blanks aside, by itself or as `space` or `dash`,
    and no glyph when it names none.
  */
  lemma {:induction false} MarkedLineReads(p: Parser, l: string, name: string, r: string)
    requires S.Blank(S.IsSpace, l) && S.Tight(S.IsSpace, name) && S.Blank(S.IsSpace, r)
    ensures Step(p, "#" + l + name + r) == p
    ensures var q := Step(p, ">> " + l + name + r);
            && q.cache == (if p.current == None then p.cache
                           else p.cache[p.current.value := Strip(S.Join(p.lines, '\n'))])
            && (name == "space" ==> q.current == Some(' ') && q.lines == [])
            && (name == "dash" ==> q.current == Some('-') && q.lines == [])
            && (|name| == 1 ==> q.current == Some(name[0]) && q.lines == [])
            && (|name| != 1 && name != "space" && name != "dash" ==>
                  q.current == None && (p.current.Some? ==> q.lines == []))
  {
    var comment, header := "#" + l + name + r, ">> " + l + name + r;
    assert comment[..1] == "#";
    assert header[..3] == ">> " && header[3..] == l + name + r && header[0] == '>';
    S.TrimUnique(S.IsSpace, l, name, r);
  }

  /** Any other line becomes the next line of the open glyph, and is ignored when none is open. */
  lemma {:induction false} OtherLineReads(p: Parser, line: string)
    requires !("#" <= line) && !(">> " <= line)
    ensures Step(p, line) == if p.current == None then p else Parser(p.cache, p.current, p.lines + [line])
  {
    PrefixIsSame(line, "#");
    PrefixIsSame(line, ">> ");
  }

  lemma {:induction false} PrefixIsSame(line: string, prefix: string)
    ensures S.HasPrefix(line, prefix) <==> prefix <= line
  {
    if S.HasPrefix(line, prefix) {
      assert line == prefix + line[|prefix|..];
    }
  }

  lemma {:induction false} HeaderReads(p: Parser, c: char)
    requires Nameable(c)
    ensures Step(p, Header(c)) == Parser(Flush(p).cache, Some(c), [])
  {
    var name := NameOf(c);
    assert Header(c)[..3] == ">> " && Header(c)[3..] == name;
    assert Header(c)[0] == '>';
    assert "" + name + "" == name;
    S.TrimUnique(S.IsSpace, "", name, "");
  }

  lemma {:induction false} StepsAppend(p: Parser, a: seq<string>, b: seq<string>)
    ensures Steps(p, a + b) == Steps(Steps(p, a), b)
    decreases |a|
  {
    if a == [] {
      assert a + b == b;
    } else {
      assert (a + b)[1..] == a[1..] + b;
      StepsAppend(Step(p, a[0]), a[1..], b);
    }
  }

  lemma {:induction false} PlainLinesAreTaken(p: Parser, ls: seq<string>)
    requires p.current.Some? && AllPlain(ls)
    ensures Steps(p, ls) == p.(lines := p.lines + ls)
    decreases |ls|
  {
    if ls == [] {
      assert p.lines + ls == p.lines;
    } else {
      PlainLinesAreTaken(Step(p, ls[0]), ls[1..]);
      assert p.lines + [ls[0]] + ls[1..] == p.lines + ls;
    }
  }

  lemma {:induction false} GlyphReads(p: Parser, g: Glyph)
    requires Nameable(g.c) && AllPlain(S.Pieces(g.art, '\n'))
    ensures Flush(Steps(p, PrintGlyph(g))) == Parser(Flush(p).cache[g.c := Strip(g.art)], None, [])
  {
    var ls := S.Pieces(g.art, '\n');
    HeaderReads(p, g.c);
    assert PrintGlyph(g)[0] == Header(g.c) && PrintGlyph(g)[1..] == ls;
    PlainLinesAreTaken(Step(p, Header(g.c)), ls);
    assert [] + ls == ls;
    S.JoinOfPieces(g.art, '\n');
  }

  /** The glyphs as they are cached: without trailing newlines. */
  function Stripped(gs: seq<Glyph>): (hs: seq<Glyph>)
    ensures |hs| == |gs| && forall i :: 0 <= i < |gs| ==> hs[i] == Glyph(gs[i].c, Strip(gs[i].art))
  {
    seq(|gs|, i requires 0 <= i < |gs| => Glyph(gs[i].c, Strip(gs[i].art)))
  }

  predicate AllNameable(gs: seq<Glyph>) {
    forall i :: 0 <= i < |gs| ==> Nameable(gs[i].c)
  }

  predicate AllReadPlain(gs: seq<Glyph>) {
    forall i :: 0 <= i < |gs| ==> AllPlain(S.Pieces(gs[i].art, '\n'))
  }

  lemma {:induction false} GlyphsRead(p: Parser, gs: seq<Glyph>)
    requires AllNameable(gs) && AllReadPlain(gs)
    ensures Flush(Steps(p, PrintFont(gs))).cache == FontOf(Stripped(gs), Flush(p).cache)
    decreases |gs|
  {
    if gs != [] {
      var g, rest := gs[0], gs[1..];
      GlyphReads(p, g);
      StepsAppend(p, PrintGlyph(g), PrintFont(rest));
      GlyphsRead(Steps(p, PrintGlyph(g)), rest);
      assert Stripped(gs)[0] == Glyph(g.c, Strip(g.art)) && Stripped(gs)[1..] == Stripped(rest);
    }
  }

  // ---- From the text to the lines ----

  /** The art as it arrives through the scanner. */
  function Arrived(art: string): string {
    S.Join(DropReturns(S.Pieces(art, '\n')), '\n')
  }

  function AllArrived(gs: seq<Glyph>): (hs: seq<Glyph>)
    ensures |hs| == |gs| && forall i :: 0 <= i < |gs| ==> hs[i] == Glyph(gs[i].c, Arrived(gs[i].art))
  {
    seq(|gs|, i requires 0 <= i < |gs| => Glyph(gs[i].c, Arrived(gs[i].art)))
  }

  predicate AllFree(ls: seq<string>) {
    forall i :: 0 <= i < |ls| ==> S.Free(ls[i], '\n')
  }

  lemma {:induction false} DropsAreFree(ls: seq<string>)
    requires AllFree(ls)
    ensures AllFree(DropReturns(ls))
  {
  }

  lemma {:induction false} PiecesArrive(art: string)
    ensures S.Pieces(Arrived(art), '\n') == DropReturns(S.Pieces(art, '\n'))
  {
    S.PiecesAreFree(art, '\n');
    DropsAreFree(S.Pieces(art, '\n'));
    S.PiecesOfJoin(DropReturns(S.Pieces(art, '\n')), '\n');
  }

  lemma {:induction false} HeaderArrives(c: char)
    requires Nameable(c)
    ensures DropReturn(Header(c)) == Header(c) && S.Free(Header(c), '\n')
  {
    var name := NameOf(c);
    assert name[|name| - 1] != '\r' && Header(c)[|Header(c)| - 1] == name[|name| - 1];
  }

  lemma {:induction false} GlyphArrives(g: Glyph)
    requires Nameable(g.c)
    ensures DropReturns(PrintGlyph(g)) == PrintGlyph(Glyph(g.c, Arrived(g.art))) && AllFree(PrintGlyph(g))
  {
    HeaderArrives(g.c);
    PiecesArrive(g.art);
    S.PiecesAreFree(g.art, '\n');
    DropsCons(Header(g.c), S.Pieces(g.art, '\n'));
    DropsAppend([Header(g.c)], S.Pieces(g.art, '\n'));
  }

  lemma {:induction false} DropsAppend(a: seq<string>, b: seq<string>)
    ensures DropReturns(a + b) == DropReturns(a) + DropReturns(b)
    ensures AllFree(a) && AllFree(b) ==> AllFree(a + b)
  {
  }

  lemma {:induction false} LinesArrive(gs: seq<Glyph>)
    requires AllNameable(gs)
    ensures DropReturns(PrintFont(gs)) == PrintFont(AllArrived(gs)) && AllFree(PrintFont(gs))
  {
    if gs != [] {
      var g, rest := gs[0], gs[1..];
      GlyphArrives(g);
      LinesArrive(rest);
      DropsAppend(PrintGlyph(g), PrintFont(rest));
      assert AllArrived(gs)[0] == Glyph(g.c, Arrived(g.art)) && AllArrived(gs)[1..] == AllArrived(rest);
    }
  }

  /** What the scanner delivers of a printed font is the printed lines of what arrives of its glyphs. */
  lemma {:induction false} TextArrives(gs: seq<Glyph>)
    requires AllNameable(gs)
    ensures Scanned(PrintText(gs)) == PrintFont(AllArrived(gs))
  {
    LinesArrive(gs);
    LinesOfUnlines(PrintFont(gs));
  }

  lemma {:induction false} JoinLength(x: string, ls: seq<string>)
    requires ls != []
    ensures |S.Join([x] + ls, '\n')| == |x| + 1 + |S.Join(ls, '\n')|
  {
    assert ([x] + ls)[1..] == ls;
  }

  lemma {:induction false} DropsCons(x: string, ls: seq<string>)
    ensures DropReturns([x] + ls) == [DropReturn(x)] + DropReturns(ls)
  {
  }

  lemma {:induction false} ShorterIfReturned(ls: seq<string>)
    ensures |S.Join(DropReturns(ls), '\n')| <= |S.Join(ls, '\n')|
    ensures DropReturns(ls) != ls ==> |S.Join(DropReturns(ls), '\n')| < |S.Join(ls, '\n')|
  {
    if |ls| > 1 {
      var x, rest := ls[0], ls[1..];
      assert ls == [x] + rest;
      ShorterIfReturned(rest);
      DropsCons(x, rest);
      JoinLength(x, rest);
      JoinLength(DropReturn(x), DropReturns(rest));
    }
  }

  lemma {:induction false} PlainStaysPlain(ls: seq<string>)
    requires AllPlain(ls)
    ensures AllPlain(DropReturns(ls))
  {
    forall i | 0 <= i < |ls| ensures Plain(DropReturn(ls[i])) {
      var line, cut := ls[i], DropReturn(ls[i]);
      assert |cut| >= 1 ==> cut[..1] == line[..1];
      assert |cut| >= 3 ==> cut[..3] == line[..3];
    }
  }

  // ---- What is cached is readable ----

  lemma {:induction false} StripShortens(s: string)
    ensures |Strip(s)| <= |s|
    ensures Strip(s) == s <==> s == "" || s[|s| - 1] != '\n'
    ensures Strip(s) == "" || Strip(s)[|Strip(s)| - 1] != '\n'
  {
    if s != "" && s[|s| - 1] == '\n' {
      StripShortens(s[..|s| - 1]);
    }
  }

  lemma {:induction false} PiecesOfEnded(s: string)
    ensures S.Pieces(s + "\n", '\n') == S.Pieces(s, '\n') + [""]
  {
    if s == "" {
      assert s + "\n" == "\n" && "\n"[1..] == "";
    } else {
      var rest := S.Pieces(s[1..], '\n');
      PiecesOfEnded(s[1..]);
      assert (s + "\n")[1..] == s[1..] + "\n";
      assert (rest + [""])[1..] == rest[1..] + [""];
    }
  }

  lemma {:induction false} StrippedIsReadable(s: string)
    requires AllPlain(S.Pieces(s, '\n'))
    ensures Readable(Strip(s))
  {
    if s != "" && s[|s| - 1] == '\n' {
      var front := s[..|s| - 1];
      assert s == front + "\n";
      PiecesOfEnded(front);
      var ls := S.Pieces(front, '\n');
      assert forall i :: 0 <= i < |ls| ==> ls[i] == (ls + [""])[i];
      StrippedIsReadable(front);
    }
  }

  /** The open entry holds plain lines, and everything cached is readable. */
  predicate Tidy(p: Parser) {
    AllPlain(p.lines) && AllFree(p.lines) && forall c :: c in p.cache ==> Readable(p.cache[c])
  }

  lemma {:induction false} FlushIsTidy(p: Parser)
    requires Tidy(p)
    ensures Tidy(Flush(p))
  {
    if p.lines != [] {
      S.PiecesOfJoin(p.lines, '\n');
    } else {
      assert S.Pieces("", '\n') == [""] && Plain("");
    }
    StrippedIsReadable(S.Join(p.lines, '\n'));
  }

  lemma {:induction false} StepsStayTidy(p: Parser, ls: seq<string>)
    requires Tidy(p) && AllFree(ls)
    ensures Tidy(Steps(p, ls))
    decreases |ls|
  {
    if ls != [] {
      FlushIsTidy(p);
      assert Tidy(Step(p, ls[0]));
      StepsStayTidy(Step(p, ls[0]), ls[1..]);
    }
  }

  // ---- Which fonts read back ----

  predicate DistinctChars(gs: seq<Glyph>) {
    forall i, j :: 0 <= i < j < |gs| ==> gs[i].c != gs[j].c
  }

  predicate AllPrintable(gs: seq<Glyph>) {
    forall i :: 0 <= i < |gs| ==> Printable(gs[i].art)
  }

  lemma {:induction false} FontKeepsOthers(gs: seq<Glyph>, font: Font, c: char)
    requires forall i :: 0 <= i < |gs| ==> gs[i].c != c
    ensures (c in FontOf(gs, font) <==> c in font) && (c in font ==> FontOf(gs, font)[c] == font[c])
    decreases |gs|
  {
    if gs != [] {
      FontKeepsOthers(gs[1..], font[gs[0].c := gs[0].art], c);
    }
  }

  lemma {:induction false} FontHas(gs: seq<Glyph>, font: Font, i: nat)
    requires DistinctChars(gs) && i < |gs|
    ensures gs[i].c in FontOf(gs, font) && FontOf(gs, font)[gs[i].c] == gs[i].art
    decreases |gs|
  {
    if i == 0 {
      FontKeepsOthers(gs[1..], font[gs[0].c := gs[0].art], gs[0].c);
    } else {
      FontHas(gs[1..], font[gs[0].c := gs[0].art], i - 1);
    }
  }

  /** Printable glyphs arrive unchanged, and read back. */
  lemma {:induction false} PrintedFontReads(gs: seq<Glyph>)
    requires AllNameable(gs) && AllPrintable(gs)
    ensures Load(Scanned(PrintText(gs))) == FontOf(gs, map[])
  {
    TextArrives(gs);
    forall i | 0 <= i < |gs| ensures Arrived(gs[i].art) == gs[i].art == Strip(gs[i].art) {
      S.JoinOfPieces(gs[i].art, '\n');
      StripShortens(gs[i].art);
    }
    assert AllArrived(gs) == gs && Stripped(gs) == gs;
    GlyphsRead(START, gs);
  }

  /** Whatever the lines are, only readable glyphs are cached. */
  lemma {:induction false} LoadedIsReadable(ls: seq<string>, c: char)
    requires AllFree(ls) && c in Load(ls)
    ensures Readable(Load(ls)[c])
  {
    StepsStayTidy(START, ls);
    FlushIsTidy(Steps(START, ls));
  }

  lemma {:induction false} ReadBackIsReadable(gs: seq<Glyph>, i: nat)
    requires AllNameable(gs) && DistinctChars(gs) && i < |gs| && Load(Scanned(PrintText(gs))) == FontOf(gs, map[])
    ensures Readable(gs[i].art)
  {
    TextArrives(gs);
    LinesArrive(gs);
    DropsAreFree(PrintFont(gs));
    FontHas(gs, map[], i);
    LoadedIsReadable(Scanned(PrintText(gs)), gs[i].c);
  }

  lemma {:induction false} ReadBackIsPrintable(gs: seq<Glyph>, i: nat)
    requires AllNameable(gs) && DistinctChars(gs) && i < |gs| && Load(Scanned(PrintText(gs))) == FontOf(gs, map[])
    ensures Printable(gs[i].art)
  {
    var hs := AllArrived(gs);
    forall j | 0 <= j < |gs| ensures AllPlain(S.Pieces(hs[j].art, '\n')) {
      ReadBackIsReadable(gs, j);
      PiecesArrive(gs[j].art);
      PlainStaysPlain(S.Pieces(gs[j].art, '\n'));
    }
    TextArrives(gs);
    GlyphsRead(START, hs);
    FontHas(gs, map[], i);
    FontHas(Stripped(hs), map[], i);
    ReadBackIsReadable(gs, i);
    StripShortens(hs[i].art);
    ShorterIfReturned(S.Pieces(gs[i].art, '\n'));
    S.JoinOfPieces(gs[i].art, '\n');
  }

  /**
    A font, printed as a text in any order of its characters and read back, is the same exactly
    when every glyph is printable: no line reads as a comment or a header or ends in a carriage
    return, and there is no trailing newline.
  */
  lemma {:induction false} FontSurvivesIffPrintable(gs: seq<Glyph>)
    requires AllNameable(gs) && DistinctChars(gs)
    ensures Load(Scanned(PrintText(gs))) == FontOf(gs, map[]) <==> AllPrintable(gs)
  {
    if AllPrintable(gs) {
      PrintedFontReads(gs);
    }
    if Load(Scanned(PrintText(gs))) == FontOf(gs, map[]) {
      forall i | 0 <= i < |gs| ensures Printable(gs[i].art) {
        ReadBackIsPrintable(gs, i);
      }
    }
  }
}
