/** The banner drawn with the font (bootstrap/banner.go): eight rows that grow one character at a time. */
module Banner {
  import opened DoomFont
  import Q = Seqs
  import S = Strings

  const HEIGHT := 8
  const BLANK := "  "
  const UNKNOWN := "? "

  /** Without the lines at the end that hold nothing but blanks. */
  function Trimmed(ls: seq<string>): (ts: seq<string>)
    ensures ts <= ls
  {
    if ls != [] && S.TrimSpace(ls[|ls| - 1]) == "" then Trimmed(ls[..|ls| - 1]) else ls
  }

  function ArtLines(art: string): seq<string> {
    Trimmed(S.Pieces(art, '\n'))
  }

  function Longest(ls: seq<string>): (w: nat)
    ensures forall i :: 0 <= i < |ls| ==> |ls[i]| <= w
    ensures w == 0 || exists i :: 0 <= i < |ls| && |ls[i]| == w
  {
    if ls == [] then 0
    else
      var w := Longest(ls[..|ls| - 1]);
      if |ls[|ls| - 1]| > w then |ls[|ls| - 1]| else w
  }

  function Spaces(n: nat): (s: string)
    ensures |s| == n && forall i :: 0 <= i < n ==> s[i] == ' '
  {
    seq(n, _ => ' ')
  }

  function Padded(s: string, w: nat): (t: string)
    ensures s <= t && |t| == if |s| < w then w else |s|
  {
    if |s| < w then s + Spaces(w - |s|) else s
  }

  /** What one character adds to row i. */
  function Cell(font: Font, c: char, i: nat): string {
    if c in font then
      var ls := ArtLines(font[c]);
      if i < |ls| then Padded(ls[i], Longest(ls)) else Spaces(Longest(ls))
    else if c == ' ' then BLANK
    else UNKNOWN
  }

  function CellWidth(font: Font, c: char): nat {
    if c in font then Longest(ArtLines(font[c])) else 2
  }

  function Row(font: Font, text: string, i: nat): string {
    if text == "" then "" else Row(font, text[..|text| - 1], i) + Cell(font, text[|text| - 1], i)
  }

  function Width(font: Font, text: string): nat {
    if text == "" then 0 else Width(font, text[..|text| - 1]) + CellWidth(font, text[|text| - 1])
  }

  function Rows(font: Font, text: string): (rows: seq<string>)
    ensures |rows| == HEIGHT && forall i :: 0 <= i < HEIGHT ==> rows[i] == Row(font, text, i)
  {
    seq(HEIGHT, i requires 0 <= i < HEIGHT => Row(font, text, i))
  }

  function BannerOf(font: Font, text: string): string {
    Strip(S.Join(Rows(font, S.Upper(text)), '\n'))
  }

  // ---- Drawing ----

  method PadLine(line: string, maxWidth: nat) returns (padded: string)
    requires |line| <= maxWidth
    ensures padded == Padded(line, maxWidth)
  {
    padded := line;
    while |padded| < maxWidth
      invariant |line| <= |padded| <= maxWidth && padded == line + Spaces(|padded| - |line|)
    {
      padded := padded + " ";
    }
  }

  method SplitArt(art: string) returns (charLines: seq<string>, maxWidth: nat)
    ensures charLines == ArtLines(art) && maxWidth == Longest(charLines)
  {
    charLines := S.Pieces(art, '\n');
    while |charLines| > 0 && S.TrimSpace(charLines[|charLines| - 1]) == ""
      invariant Trimmed(charLines) == ArtLines(art)
    {
      charLines := charLines[..|charLines| - 1];
    }
    maxWidth := 0;
    for i := 0 to |charLines|
      invariant maxWidth == Longest(charLines[..i])
    {
      assert charLines[..i + 1][..i] == charLines[..i];
      if |charLines[i]| > maxWidth {
        maxWidth := |charLines[i]|;
      }
    }
    assert charLines[..|charLines|] == charLines;
  }

  /** Extends every row by one character's cell. */
  method DrawChar(font: Font, c: char, lines: array<string>)
    requires lines.Length == HEIGHT
    modifies lines
    ensures forall i :: 0 <= i < HEIGHT ==> lines[i] == old(lines[i]) + Cell(font, c, i)
  {
    if c in font {
      var charLines, maxWidth := SplitArt(font[c]);
      for i := 0 to HEIGHT
        invariant forall j :: 0 <= j < i ==> lines[j] == old(lines[j]) + Cell(font, c, j)
        invariant forall j :: i <= j < HEIGHT ==> lines[j] == old(lines[j])
      {
        if i < |charLines| {
          var padded := PadLine(charLines[i], maxWidth);
          lines[i] := lines[i] + padded;
        } else {
          lines[i] := lines[i] + Spaces(maxWidth);
        }
      }
    } else {
      var cell := if c == ' ' then BLANK else UNKNOWN;
      for i := 0 to HEIGHT
        invariant forall j :: 0 <= j < i ==> lines[j] == old(lines[j]) + Cell(font, c, j)
        invariant forall j :: i <= j < HEIGHT ==> lines[j] == old(lines[j])
      {
        lines[i] := lines[i] + cell;
      }
    }
  }

  predicate Drawn(rows: seq<string>, font: Font, t: string) {
    |rows| == HEIGHT && forall i :: 0 <= i < HEIGHT ==> rows[i] == Row(font, t, i)
  }

  lemma {:induction false} DrawnStep(rows: seq<string>, rows': seq<string>, font: Font, t: string, c: char)
    requires Drawn(rows, font, t) && |rows'| == HEIGHT
    requires forall i :: 0 <= i < HEIGHT ==> rows'[i] == rows[i] + Cell(font, c, i)
    ensures Drawn(rows', font, t + [c])
  {
    forall i | 0 <= i < HEIGHT ensures rows'[i] == Row(font, t + [c], i) {
      RowSnoc(font, t, c, i);
    }
  }

  method GenerateBanner(font: Font, text: string) returns (banner: string)
    ensures banner == BannerOf(font, text)
  {
    var upper := S.Upper(text);
    var lines := new string[HEIGHT](_ => "");
    for k := 0 to |upper|
      invariant Drawn(lines[..], font, upper[..k])
    {
      ghost var rows := lines[..];
      DrawChar(font, upper[k], lines);
      DrawnStep(rows, lines[..], font, upper[..k], upper[k]);
      assert upper[..k + 1] == upper[..k] + [upper[k]];
    }
    assert upper[..|upper|] == upper;
    assert lines[..] == Rows(font, upper);
    banner := Strip(S.Join(lines[..], '\n'));
  }

  // ---- What the rows look like ----

  lemma {:induction false} CellsAreLevel(font: Font, c: char, i: nat)
    ensures |Cell(font, c, i)| == CellWidth(font, c)
  {
  }

  /** After every character all rows have the same length. */
  lemma {:induction false} RowsAreLevel(font: Font, text: string, i: nat)
    ensures |Row(font, text, i)| == Width(font, text)
  {
    if text != "" {
      RowsAreLevel(font, text[..|text| - 1], i);
      CellsAreLevel(font, text[|text| - 1], i);
    }
  }

  lemma {:induction false} RowSnoc(font: Font, t: string, c: char, i: nat)
    ensures Row(font, t + [c], i) == Row(font, t, i) + Cell(font, c, i)
    ensures Width(font, t + [c]) == Width(font, t) + CellWidth(font, c)
  {
    assert (t + [c])[..|t|] == t;
  }

  /** The rows of two texts side by side are the rows of the joined text. */
  lemma {:induction false} RowsAppend(font: Font, a: string, b: string, i: nat)
    ensures Row(font, a + b, i) == Row(font, a, i) + Row(font, b, i)
    ensures Width(font, a + b) == Width(font, a) + Width(font, b)
  {
    if b == "" {
      assert a + b == a;
    } else {
      var front, c := b[..|b| - 1], b[|b| - 1];
      RowsAppend(font, a, front, i);
      Q.Associates(a, front, [c]);
      assert front + [c] == b;
      RowSnoc(font, a + front, c, i);
      RowSnoc(font, front, c, i);
      Q.Associates(Row(font, a, i), Row(font, front, i), Cell(font, c, i));
    }
  }

  /** Each character's cells stand in one column of the rows. */
  lemma {:induction false} CellStandsInColumn(font: Font, text: string, k: nat, i: nat)
    requires k < |text|
    ensures var from := Width(font, text[..k]);
            var to := from + CellWidth(font, text[k]);
            to <= |Row(font, text, i)| && Row(font, text, i)[from..to] == Cell(font, text[k], i)
  {
    var before, b, c := text[..k], text[k + 1..], text[k];
    assert text == (before + [c]) + b;
    RowsAppend(font, before + [c], b, i);
    RowSnoc(font, before, c, i);
    RowsAreLevel(font, before, i);
    CellsAreLevel(font, c, i);
    Q.Middle(Row(font, before, i), Cell(font, c, i), Row(font, b, i));
  }

  /**
    A glyph is drawn from its first row down: its lines, each followed by spaces only, then rows of spaces.
    A character without one is drawn as two columns in every row.
  */
  lemma {:induction false} GlyphIsDrawn(font: Font, c: char, i: nat)
    ensures var cell := Cell(font, c, i);
            if c !in font then cell == if c == ' ' then "  " else "? "
            else
              var ls := S.Pieces(font[c], '\n');
              if i < |ArtLines(font[c])| then
                ls[i] <= cell && forall j :: |ls[i]| <= j < |cell| ==> cell[j] == ' '
              else (forall j :: 0 <= j < |cell| ==> cell[j] == ' ') && (i < |ls| ==> S.TrimSpace(ls[i]) == "")
  {
    if c in font {
      TrimmedAreBlank(S.Pieces(font[c], '\n'));
    }
  }

  lemma {:induction false} TrimmedAreBlank(ls: seq<string>)
    ensures forall i :: |Trimmed(ls)| <= i < |ls| ==> S.TrimSpace(ls[i]) == ""
  {
    if ls != [] && S.TrimSpace(ls[|ls| - 1]) == "" {
      TrimmedAreBlank(ls[..|ls| - 1]);
    }
  }

  lemma {:induction false} CellsAreFree(font: Font, c: char, i: nat)
    ensures S.Free(Cell(font, c, i), '\n')
  {
    if c in font {
      S.PiecesAreFree(font[c], '\n');
      var ls := ArtLines(font[c]);
      if i < |ls| {
        assert S.Free(ls[i], '\n');
      }
    }
  }

  lemma {:induction false} RowsAreFree(font: Font, text: string, i: nat)
    ensures S.Free(Row(font, text, i), '\n')
  {
    if text != "" {
      RowsAreFree(font, text[..|text| - 1], i);
      CellsAreFree(font, text[|text| - 1], i);
    }
  }

  lemma {:induction false} JoinEnds(rows: seq<string>)
    requires rows != [] && rows[|rows| - 1] != ""
    ensures var j, last := S.Join(rows, '\n'), rows[|rows| - 1]; j != "" && j[|j| - 1] == last[|last| - 1]
  {
    if |rows| > 1 {
      JoinEnds(rows[1..]);
    }
  }

  lemma {:induction false} BlankRowsJoin(rows: seq<string>)
    requires forall i :: 0 <= i < |rows| ==> rows[i] == ""
    ensures S.Blank(c => c == '\n', S.Join(rows, '\n'))
  {
    if |rows| > 1 {
      BlankRowsJoin(rows[1..]);
    }
  }

  /** The banner splits back into its eight level rows exactly when the text has any width. */
  lemma {:induction false} BannerSplitsIffWide(font: Font, text: string)
    ensures |Rows(font, S.Upper(text))| == 8
    ensures S.Pieces(BannerOf(font, text), '\n') == Rows(font, S.Upper(text)) <==> Width(font, S.Upper(text)) > 0
  {
    var upper := S.Upper(text);
    var rows := Rows(font, upper);
    forall i | 0 <= i < HEIGHT ensures |rows[i]| == Width(font, upper) && S.Free(rows[i], '\n') {
      RowsAreLevel(font, upper, i);
      RowsAreFree(font, upper, i);
    }
    if Width(font, upper) > 0 {
      JoinEnds(rows);
      StripShortens(S.Join(rows, '\n'));
      S.PiecesOfJoin(rows, '\n');
    } else {
      BlankRowsJoin(rows);
      var newline: char -> bool := c => c == '\n';
      S.TrimRightDrops(newline, "", S.Join(rows, '\n'));
      assert "" + S.Join(rows, '\n') == S.Join(rows, '\n');
      assert BannerOf(font, text) == "";
    }
  }

  lemma {:induction false} BlankLinesAreTrimmed(ls: seq<string>)
    requires forall i :: 0 <= i < |ls| ==> S.TrimSpace(ls[i]) == ""
    ensures Trimmed(ls) == []
  {
    if ls != [] {
      BlankLinesAreTrimmed(ls[..|ls| - 1]);
    }
  }

  lemma {:induction false} TrimmedEndsInText(ls: seq<string>)
    ensures var ts := Trimmed(ls); ts == [] || S.TrimSpace(ts[|ts| - 1]) != ""
  {
    if ls != [] && S.TrimSpace(ls[|ls| - 1]) == "" {
      TrimmedEndsInText(ls[..|ls| - 1]);
    }
  }

  lemma {:induction false} TrimmedIsEmptyIffBlank(ls: seq<string>)
    ensures Trimmed(ls) == [] <==> forall i :: 0 <= i < |ls| ==> S.TrimSpace(ls[i]) == ""
  {
    TrimmedAreBlank(ls);
    if forall i :: 0 <= i < |ls| ==> S.TrimSpace(ls[i]) == "" {
      BlankLinesAreTrimmed(ls);
    }
  }

  /** A character takes no room exactly when the font has it with blank lines only, as it has its own space. */
  lemma {:induction false} NoWidthIffBlankGlyph(font: Font, c: char)
    ensures CellWidth(font, c) == 0
            <==> c in font && forall i :: 0 <= i < |S.Pieces(font[c], '\n')| ==>
                   S.TrimSpace(S.Pieces(font[c], '\n')[i]) == ""
  {
    if c in font {
      var ls, ts := S.Pieces(font[c], '\n'), ArtLines(font[c]);
      TrimmedIsEmptyIffBlank(ls);
      TrimmedEndsInText(ls);
      assert ts != [] && ts[|ts| - 1] == "" ==> S.TrimSpace("") == "";
    }
  }
}
