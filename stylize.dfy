/** The message box of `src/error/stylize.rs`: a text framed by rounded
    corners and '─' edges, one layout for a single line and one that pads
    every line to the widest. Widths are measured on the text with its
    colour codes stripped, in characters. */
module Stylize {
  import opened Strings
  import opened Hyperstr

  const TopLeft: string := "╭"
  const TopRight: string := "╮"
  const BottomLeft: string := "╰"
  const BottomRight: string := "╯"
  const LeftEdge: string := "│ "
  const RightEdge: string := " │"
  const Horizontal: char := '─'

  /** `n` horizontal edge characters. */
  function Edge(n: nat): (r: string)
    ensures |r| == n && forall k :: 0 <= k < n ==> r[k] == Horizontal
  {
    seq(n, _ => Horizontal)
  }

  /** The width of a line as the box measures it. */
  function Width(line: string): nat
  {
    |StripAnsi(line)|
  }

  /** The widest line, 0 for none, scanned left to right as `multi` does. */
  function MaxWidth(lines: seq<string>): (w: nat)
    ensures forall k :: 0 <= k < |lines| ==> Width(lines[k]) <= w
    ensures lines != [] ==> exists k :: 0 <= k < |lines| && Width(lines[k]) == w
    ensures lines == [] ==> w == 0
    decreases |lines|
  {
    if lines == [] then 0
    else
      var w := MaxWidth(lines[..|lines| - 1]);
      var last := Width(lines[|lines| - 1]);
      assert forall k :: 0 <= k < |lines| - 1 ==> lines[k] == lines[..|lines| - 1][k];
      if last > w then last else w
  }

  /** The top edge of a box around lines `w` wide. */
  function TopLine(w: nat): string
  {
    TopLeft + Edge(w + 2) + TopRight
  }

  /** The top border in `color`, ended by a line break. */
  function Top(w: nat, color: string): string
  {
    color + TopLine(w) + "\n"
  }

  /** The bottom border, with no line break after it. */
  function Bottom(w: nat): string
  {
    BottomLeft + Edge(w + 2) + BottomRight
  }

  /** One framed line of the multi-line layout, padded to `w`. */
  function Row(line: string, w: nat, color: string): string
    requires Width(line) <= w
  {
    LeftEdge + RESET + line + Spaces(w - Width(line)) + color + RightEdge + "\n"
  }

  /** The framed lines, in order. */
  function Rows(lines: seq<string>, w: nat, color: string): string
    requires forall k :: 0 <= k < |lines| ==> Width(lines[k]) <= w
    decreases |lines|
  {
    if lines == [] then []
    else
      assert forall k :: 0 <= k < |lines| - 1 ==> lines[..|lines| - 1][k] == lines[k];
      Rows(lines[..|lines| - 1], w, color) + Row(lines[|lines| - 1], w, color)
  }

  /** What `single` builds. */
  function SingleBox(text: string, color: string): string
  {
    var w := Width(text);
    Top(w, color) + LeftEdge + RESET + text + color + RightEdge + "\n" + Bottom(w)
  }

  /** What `multi` builds. */
  function MultiBox(text: string, color: string): string
  {
    var lines := SplitOn(text, '\n');
    var w := MaxWidth(lines);
    Top(w, color) + Rows(lines, w, color) + Bottom(w)
  }

  /** What `apply_border` builds: the single-line layout exactly when
      splitting at '\n' gives one piece. */
  function Border(text: string, color: string): string
  {
    if |SplitOn(text, '\n')| == 1 then SingleBox(text, color) else MultiBox(text, color)
  }

  /** `apply_border`. */
  method ApplyBorder(text: string, color: string) returns (output: string)
    ensures output == Border(text, color)
  {
    var lines := SplitOn(text, '\n');
    if |lines| == 1 {
      output := Single(text, color);
    } else {
      output := Multi(text, color);
    }
  }

  /** Appends `n` edge characters, one at a time. */
  method PushEdge(prefix: string, n: nat) returns (output: string)
    ensures output == prefix + Edge(n)
  {
    output := prefix;
    for k := 0 to n
      invariant output == prefix + Edge(k)
    {
      assert Edge(k) + [Horizontal] == Edge(k + 1);
      output := output + [Horizontal];
    }
  }

  /** Appends `n` spaces, one at a time. */
  method PushSpaces(prefix: string, n: nat) returns (output: string)
    ensures output == prefix + Spaces(n)
  {
    output := prefix;
    for k := 0 to n
      invariant output == prefix + Spaces(k)
    {
      assert Spaces(k) + [' '] == Spaces(k + 1);
      output := output + [' '];
    }
  }

  /** `single`. */
  method Single(text: string, color: string) returns (output: string)
    ensures output == SingleBox(text, color)
  {
    var len := |StripAnsi(text)|;
    output := color + TopLeft;
    output := PushEdge(output, len + 2);
    output := output + TopRight + "\n";
    output := output + LeftEdge + RESET + text + color + RightEdge + "\n";
    output := output + BottomLeft;
    output := PushEdge(output, len + 2);
    output := output + BottomRight;
  }

  /** `multi`. */
  method Multi(text: string, color: string) returns (output: string)
    ensures output == MultiBox(text, color)
  {
    var lines := SplitOn(text, '\n');
    var len := Widest(lines);
    output := color + TopLeft;
    output := PushEdge(output, len + 2);
    output := output + TopRight + "\n";
    output := PushRows(output, lines, len, color);
    output := output + BottomLeft;
    output := PushEdge(output, len + 2);
    output := output + BottomRight;
  }

  /** The width loop of `multi`: the running maximum, updated only by a
      strictly wider line. */
  method Widest(lines: seq<string>) returns (len: nat)
    ensures len == MaxWidth(lines)
  {
    len := 0;
    for i := 0 to |lines|
      invariant len == MaxWidth(lines[..i])
    {
      assert lines[..i + 1][..i] == lines[..i];
      var width := |StripAnsi(lines[i])|;
      if width > len {
        len := width;
      }
    }
    assert lines[..|lines|] == lines;
  }

  /** The row loop of `multi`. */
  method PushRows(prefix: string, lines: seq<string>, len: nat, color: string) returns (output: string)
    requires forall k :: 0 <= k < |lines| ==> Width(lines[k]) <= len
    ensures output == prefix + Rows(lines, len, color)
  {
    output := prefix;
    for i := 0 to |lines|
      invariant output == prefix + Rows(lines[..i], len, color)
    {
      var done := lines[..i + 1];
      assert done[..i] == lines[..i] && done[i] == lines[i];
      assert Rows(done, len, color) == Rows(lines[..i], len, color) + Row(lines[i], len, color);
      output := PushRow(output, lines[i], len, color);
    }
    assert lines[..|lines|] == lines;
  }

  /** One pass of the row loop of `multi`. */
  method PushRow(prefix: string, line: string, len: nat, color: string) returns (output: string)
    requires Width(line) <= len
    ensures output == prefix + Row(line, len, color)
  {
    output := prefix + LeftEdge + RESET + line;
    output := PushSpaces(output, len - |StripAnsi(line)|);
    output := output + color + RightEdge + "\n";
    assert output == prefix + (LeftEdge + RESET + line + Spaces(len - Width(line)) + color + RightEdge + "\n");
  }

  // ---------------------------------------------------------------------
  // What the box looks like

  /** One visible row: the line between the edges, padded to `w`. */
  function PlainRow(line: string, w: nat): (r: string)
    requires |line| <= w
    ensures |r| == w + 4
  {
    LeftEdge + line + Spaces(w - |line|) + RightEdge
  }

  /** The visible rows, one per line. */
  function PlainRows(lines: seq<string>, w: nat): (r: seq<string>)
    requires forall k :: 0 <= k < |lines| ==> |lines[k]| <= w
    ensures |r| == |lines|
    ensures forall k :: 0 <= k < |r| ==> r[k] == PlainRow(lines[k], w)
    decreases |lines|
  {
    if lines == [] then []
    else
      var init := lines[..|lines| - 1];
      assert forall k :: 0 <= k < |init| ==> init[k] == lines[k];
      PlainRows(init, w) + [PlainRow(lines[|lines| - 1], w)]
  }

  /** The lines a terminal shows for a box around plain `lines`. */
  function PlainBox(lines: seq<string>, w: nat): (r: seq<string>)
    requires forall k :: 0 <= k < |lines| ==> |lines[k]| <= w
    ensures |r| == |lines| + 2
  {
    [TopLine(w)] + PlainRows(lines, w) + [Bottom(w)]
  }

  /** Every line of the box, borders included, is `w + 4` wide, and the
      rows show the input lines in order. */
  lemma PlainBoxAligned(lines: seq<string>, w: nat)
    requires forall k :: 0 <= k < |lines| ==> |lines[k]| <= w
    ensures forall k :: 0 <= k < |PlainBox(lines, w)| ==> |PlainBox(lines, w)[k]| == w + 4
    ensures forall k :: 0 <= k < |lines| ==> PlainBox(lines, w)[k + 1] == LeftEdge + lines[k] + Spaces(w - |lines[k]|) + RightEdge
    ensures PlainBox(lines, w)[0] == TopLine(w)
    ensures PlainBox(lines, w)[|lines| + 1] == Bottom(w)
  {
    var box := PlainBox(lines, w);
    forall k | 0 <= k < |box| ensures |box[k]| == w + 4 {
      if 0 < k < |box| - 1 {
        assert box[k] == PlainRows(lines, w)[k - 1];
      }
    }
  }

  /** One framed line as styled text. */
  function RowSegments(line: string, w: nat, color: string): seq<Segment>
    requires |line| <= w
  {
    [Text(LeftEdge), Style(RESET), Text(line + Spaces(w - |line|)), Style(color), Text(RightEdge + "\n")]
  }

  /** All framed lines as styled text. */
  function RowsSegments(lines: seq<string>, w: nat, color: string): seq<Segment>
    requires forall k :: 0 <= k < |lines| ==> |lines[k]| <= w
    decreases |lines|
  {
    if lines == [] then []
    else
      var init := lines[..|lines| - 1];
      assert forall k :: 0 <= k < |init| ==> init[k] == lines[k];
      RowsSegments(init, w, color) + RowSegments(lines[|lines| - 1], w, color)
  }

  /** Lines free of escape characters, each at most `w` wide. */
  predicate PlainLines(lines: seq<string>, w: nat)
  {
    forall k :: 0 <= k < |lines| ==> ESC !in lines[k] && |lines[k]| <= w
  }

  lemma PlainWidth(line: string)
    requires ESC !in line
    ensures Width(line) == |line|
  {
    StripAnsiPlain(line);
  }

  lemma RowPieces(line: string, w: nat, color: string)
    requires ESC !in line && |line| <= w && color in SgrCodes
    ensures Width(line) <= w
    ensures Render(RowSegments(line, w, color)) == Row(line, w, color)
    ensures Visible(RowSegments(line, w, color)) == PlainRow(line, w) + "\n"
    ensures StyledBy(RowSegments(line, w, color), SgrCodes)
  {
    PlainWidth(line);
    RowRender(line, w, color);
    RowVisible(line, w, color);
    RowStyled(line, w, color);
  }

  lemma RowRender(line: string, w: nat, color: string)
    requires |line| <= w && Width(line) == |line|
    ensures Render(RowSegments(line, w, color)) == Row(line, w, color)
  {
    var pad := line + Spaces(w - |line|);
    WrappedRender(RowSegments(line, w, color), LeftEdge, RESET, pad, color, RightEdge + "\n");
    assert LeftEdge + RESET + pad + color + (RightEdge + "\n") == Row(line, w, color);
  }

  lemma RowVisible(line: string, w: nat, color: string)
    requires |line| <= w
    ensures Visible(RowSegments(line, w, color)) == PlainRow(line, w) + "\n"
  {
    var pad := line + Spaces(w - |line|);
    WrappedVisible(RowSegments(line, w, color), LeftEdge, RESET, pad, color, RightEdge + "\n");
    assert LeftEdge + pad + (RightEdge + "\n") == PlainRow(line, w) + "\n";
  }

  lemma RowStyled(line: string, w: nat, color: string)
    requires ESC !in line && |line| <= w && color in SgrCodes
    ensures StyledBy(RowSegments(line, w, color), SgrCodes)
  {
    var pad := line + Spaces(w - |line|);
    assert RESET == SgrCodes[0];
    assert ESC !in Spaces(w - |line|);
    assert ESC !in pad;
  }

  lemma RowsPieces(lines: seq<string>, w: nat, color: string)
    requires PlainLines(lines, w) && color in SgrCodes
    ensures forall k :: 0 <= k < |lines| ==> Width(lines[k]) <= w
    ensures Render(RowsSegments(lines, w, color)) == Rows(lines, w, color)
    ensures Visible(RowsSegments(lines, w, color)) == Terminated(PlainRows(lines, w), '\n')
    ensures StyledBy(RowsSegments(lines, w, color), SgrCodes)
  {
    forall k | 0 <= k < |lines| ensures Width(lines[k]) == |lines[k]| {
      PlainWidth(lines[k]);
    }
    RowsRender(lines, w, color);
    RowsVisible(lines, w, color);
    RowsStyled(lines, w, color);
  }

  lemma {:induction false} RowsRender(lines: seq<string>, w: nat, color: string)
    requires forall k :: 0 <= k < |lines| ==> |lines[k]| <= w && Width(lines[k]) == |lines[k]|
    ensures Render(RowsSegments(lines, w, color)) == Rows(lines, w, color)
    decreases |lines|
  {
    if lines != [] {
      var init, last := lines[..|lines| - 1], lines[|lines| - 1];
      assert forall k :: 0 <= k < |init| ==> init[k] == lines[k];
      RowsRender(init, w, color);
      RowRender(last, w, color);
      RenderAppend(RowsSegments(init, w, color), RowSegments(last, w, color));
    }
  }

  lemma {:induction false} RowsVisible(lines: seq<string>, w: nat, color: string)
    requires forall k :: 0 <= k < |lines| ==> |lines[k]| <= w
    ensures Visible(RowsSegments(lines, w, color)) == Terminated(PlainRows(lines, w), '\n')
    decreases |lines|
  {
    if lines != [] {
      var init, last := lines[..|lines| - 1], lines[|lines| - 1];
      var before, row := Terminated(PlainRows(init, w), '\n'), PlainRow(last, w);
      assert Visible(RowsSegments(lines, w, color)) == before + (row + "\n") by {
        assert forall k :: 0 <= k < |init| ==> init[k] == lines[k];
        RowsVisible(init, w, color);
        RowVisible(last, w, color);
        VisibleAppend(RowsSegments(init, w, color), RowSegments(last, w, color));
      }
      assert Terminated(PlainRows(lines, w), '\n') == before + row + "\n" by {
        var rows := PlainRows(lines, w);
        assert rows[..|rows| - 1] == PlainRows(init, w);
      }
      AppendAssoc(before, row, "\n");
    }
  }


  lemma {:induction false} RowsStyled(lines: seq<string>, w: nat, color: string)
    requires PlainLines(lines, w) && color in SgrCodes
    ensures StyledBy(RowsSegments(lines, w, color), SgrCodes)
    decreases |lines|
  {
    if lines != [] {
      var init, last := lines[..|lines| - 1], lines[|lines| - 1];
      assert forall k :: 0 <= k < |init| ==> init[k] == lines[k];
      RowsStyled(init, w, color);
      RowStyled(last, w, color);
      assert forall seg :: seg in RowsSegments(lines, w, color) ==>
        seg in RowsSegments(init, w, color) || seg in RowSegments(last, w, color);
    }
  }

  /** Stripping the codes from a box around plain lines leaves exactly the
      plain box, one visible line per element. */
  lemma MultiBoxVisible(text: string, color: string)
    requires ESC !in text && color in SgrCodes
    ensures var lines := SplitOn(text, '\n');
            PlainLines(lines, MaxWidth(lines)) &&
            SplitOn(StripAnsi(MultiBox(text, color)), '\n') == PlainBox(lines, MaxWidth(lines))
  {
    var lines := SplitOn(text, '\n');
    var w := MaxWidth(lines);
    SplitAbsent(text, '\n', ESC);
    SplitPieces(text, '\n');
    forall k | 0 <= k < |lines| ensures |lines[k]| <= w {
      PlainWidth(lines[k]);
    }
    BoxVisible(lines, w, color);
    BoxLinesFree(lines, w);
    SplitJoin(PlainBox(lines, w), '\n');
  }

  lemma BoxVisible(lines: seq<string>, w: nat, color: string)
    requires PlainLines(lines, w) && color in SgrCodes
    ensures forall k :: 0 <= k < |lines| ==> Width(lines[k]) <= w
    ensures StripAnsi(Top(w, color) + Rows(lines, w, color) + Bottom(w)) == JoinWith(PlainBox(lines, w), '\n')
  {
    BoxStripped(lines, w, color);
    PlainBoxJoin(lines, w);
  }

  /** The box as styled text, and what stripping its codes leaves. */
  lemma BoxStripped(lines: seq<string>, w: nat, color: string)
    requires PlainLines(lines, w) && color in SgrCodes
    ensures forall k :: 0 <= k < |lines| ==> Width(lines[k]) <= w
    ensures StripAnsi(Top(w, color) + Rows(lines, w, color) + Bottom(w))
         == TopLine(w) + "\n" + Terminated(PlainRows(lines, w), '\n') + Bottom(w)
  {
    RowsPieces(lines, w, color);
    var top, bottom := TopLine(w), Bottom(w);
    var rows := RowsSegments(lines, w, color);
    var segments := [Style(color), Text(top + "\n")] + rows + [Text(bottom)];
    BoxPieces(color, top, rows, bottom);
    assert Render(segments) == Top(w, color) + Rows(lines, w, color) + Bottom(w);
    StripAnsiVisible(segments);
  }



  lemma PlainBoxJoin(lines: seq<string>, w: nat)
    requires forall k :: 0 <= k < |lines| ==> |lines[k]| <= w
    ensures JoinWith(PlainBox(lines, w), '\n')
         == TopLine(w) + "\n" + Terminated(PlainRows(lines, w), '\n') + Bottom(w)
  {
    var top := TopLine(w);
    var bottom := Bottom(w);
    var plain := PlainRows(lines, w);
    JoinTerminated([top] + plain, bottom, '\n');
    TerminatedCons(top, plain, '\n');
    assert [top] + plain + [bottom] == PlainBox(lines, w);
  }

  lemma BoxPieces(color: string, top: string, rows: seq<Segment>, bottom: string)
    requires color in SgrCodes && ESC !in top && ESC !in bottom && StyledBy(rows, SgrCodes)
    ensures var segments := [Style(color), Text(top + "\n")] + rows + [Text(bottom)];
            StyledBy(segments, SgrCodes) &&
            Render(segments) == color + top + "\n" + Render(rows) + bottom &&
            Visible(segments) == top + "\n" + Visible(rows) + bottom
  {
    var head, tail := [Style(color), Text(top + "\n")], [Text(bottom)];
    var line := top + "\n";
    assert head[1..] == [Text(line)] && head[1..][1..] == [] && tail[1..] == [];
    assert Render(head[1..]) == line + [] == line;
    assert Visible(head[1..]) == line + [] == line;
    assert Render(head) == color + line;
    assert Visible(head) == [] + line == line;
    assert Render(tail) == bottom + [] == bottom;
    assert Visible(tail) == bottom + [] == bottom;
    RenderAppend(head, rows);
    RenderAppend(head + rows, tail);
    VisibleAppend(head, rows);
    VisibleAppend(head + rows, tail);
    AppendAssoc(color, top, "\n");
    assert StyledBy(head, SgrCodes) by {
      assert ESC !in line;
    }
    StyledByAppend(head, rows, SgrCodes);
    StyledByAppend(head + rows, tail, SgrCodes);
  }


  lemma {:induction false} TerminatedCons(x: string, xs: seq<string>, c: char)
    ensures Terminated([x] + xs, c) == x + [c] + Terminated(xs, c)
    decreases |xs|
  {
    if xs == [] {
      assert [x] + xs == [x];
      assert [x][..0] == [];
    } else {
      var init := xs[..|xs| - 1];
      TerminatedCons(x, init, c);
      assert ([x] + xs)[..|xs|] == [x] + init;
    }
  }

  lemma BoxLinesFree(lines: seq<string>, w: nat)
    requires forall k :: 0 <= k < |lines| ==> |lines[k]| <= w && '\n' !in lines[k]
    ensures forall k :: 0 <= k < |PlainBox(lines, w)| ==> '\n' !in PlainBox(lines, w)[k]
  {
    var box := PlainBox(lines, w);
    forall k | 0 <= k < |box| ensures '\n' !in box[k] {
      if 0 < k < |box| - 1 {
        assert box[k] == PlainRow(lines[k - 1], w);
        assert '\n' !in Spaces(w - |lines[k - 1]|);
      }
    }
  }

  // ---------------------------------------------------------------------
  // Properties of `apply_border`

  /** The single-line layout is the multi-line layout of its one line, so
      `apply_border` always draws the box `multi` would draw. */
  lemma BorderIsMulti(text: string, color: string)
    ensures Border(text, color) == MultiBox(text, color)
  {
    var lines := SplitOn(text, '\n');
    if |lines| == 1 {
      JoinSplit(text, '\n');
      assert lines == [text];
      var w := Width(text);
      assert MaxWidth(lines) == w by {
        assert lines[..0] == [];
      }
      assert Rows(lines, w, color) == Row(text, w, color) by {
        assert lines[..0] == [];
      }
      SingleRow(text, w, color);
    }
  }

  /** The single-line layout is the top, one row and the bottom. */
  lemma SingleRow(text: string, w: nat, color: string)
    requires w == Width(text)
    ensures SingleBox(text, color) == Top(w, color) + Row(text, w, color) + Bottom(w)
  {
    var top := Top(w, color);
    var e := LeftEdge + RESET;
    assert Row(text, w, color) == e + text + color + RightEdge + "\n" by {
      assert Spaces(0) == [];
      assert e + text + Spaces(0) == e + text;
    }
    AppendAssoc(top, LeftEdge, RESET);
    AppendAssoc(top, e, text);
    AppendAssoc(top, e + text, color);
    AppendAssoc(top, e + text + color, RightEdge);
    AppendAssoc(top, e + text + color + RightEdge, "\n");
  }

  /** With plain text and a colour from the table, the box a terminal shows
      is the plain box around the input lines: with `PlainBoxAligned`, one
      line per input line plus the two borders, every line as wide as the
      widest input line plus four, the input lines in order. */
  lemma BorderVisible(text: string, color: string)
    requires ESC !in text && color in SgrCodes
    ensures var lines := SplitOn(text, '\n');
            PlainLines(lines, MaxWidth(lines)) &&
            SplitOn(StripAnsi(Border(text, color)), '\n') == PlainBox(lines, MaxWidth(lines))
  {
    BorderIsMulti(text, color);
    MultiBoxVisible(text, color);
  }

  /** With a colour free of line breaks, `apply_border` gives two lines more
      than the text has, and ends on the bottom corner, not a line break. */
  lemma BorderLineCount(text: string, color: string)
    requires '\n' !in color
    ensures |SplitOn(Border(text, color), '\n')| == |SplitOn(text, '\n')| + 2
    ensures var out := Border(text, color); |out| > 0 && out[|out| - 1] == BottomRight[0]
  {
    BorderIsMulti(text, color);
    var lines := SplitOn(text, '\n');
    var w := MaxWidth(lines);
    SplitPieces(text, '\n');
    RowsCount(lines, w, color);
    TopCount(w, color);
    CountAbsent(Bottom(w), '\n');
    CountAppend(Top(w, color), Rows(lines, w, color), '\n');
    CountAppend(Top(w, color) + Rows(lines, w, color), Bottom(w), '\n');
    SplitPieces(MultiBox(text, color), '\n');
  }

  lemma LineCount(x: string)
    requires '\n' !in x
    ensures Count(x + "\n", '\n') == 1
  {
    CountAppend(x, "\n", '\n');
    CountAbsent(x, '\n');
  }

  lemma TopCount(w: nat, color: string)
    requires '\n' !in color
    ensures Count(Top(w, color), '\n') == 1
  {
    assert '\n' !in TopLine(w);
    LineCount(color + TopLine(w));
  }

  lemma RowCount(line: string, w: nat, color: string)
    requires '\n' !in line && '\n' !in color && Width(line) <= w
    ensures Count(Row(line, w, color), '\n') == 1
  {
    assert '\n' !in Spaces(w - Width(line));
    LineCount(LeftEdge + RESET + line + Spaces(w - Width(line)) + color + RightEdge);
  }

  lemma {:induction false} RowsCount(lines: seq<string>, w: nat, color: string)
    requires forall k :: 0 <= k < |lines| ==> Width(lines[k]) <= w && '\n' !in lines[k]
    requires '\n' !in color
    ensures Count(Rows(lines, w, color), '\n') == |lines|
    decreases |lines|
  {
    if lines != [] {
      var init := lines[..|lines| - 1];
      assert forall k :: 0 <= k < |init| ==> init[k] == lines[k];
      RowsCount(init, w, color);
      RowCount(lines[|lines| - 1], w, color);
      CountAppend(Rows(init, w, color), Row(lines[|lines| - 1], w, color), '\n');
    }
  }

  /** A plain line is framed by edges two characters longer than itself. */
  lemma OneLineBorder(text: string, color: string)
    requires ESC !in text && '\n' !in text && color in SgrCodes
    ensures SplitOn(StripAnsi(Border(text, color)), '\n')
         == [TopLine(|text|), LeftEdge + text + RightEdge, Bottom(|text|)]
  {
    BorderVisible(text, color);
    NoCharNoOccurrence(text, '\n');
    var lines := SplitOn(text, '\n');
    assert lines == [text];
    PlainWidth(text);
    var w := |text|;
    assert MaxWidth(lines) == w by { assert lines[..0] == []; }
    assert PlainRow(text, w) == LeftEdge + text + RightEdge by {
      assert Spaces(0) == [];
      assert LeftEdge + text + [] == LeftEdge + text;
    }
    var rows := PlainRows(lines, w);
    assert |rows| == 1 && rows[0] == PlainRow(text, w);
    assert rows == [LeftEdge + text + RightEdge];
  }

  /** The single-line case: "Hello, world!" in red shows a box with 15 edge
      characters above and below. */
  lemma HelloBorder(text: string)
    requires text == "Hello, world!"
    ensures SplitOn(StripAnsi(Border(text, RED)), '\n')
         == [TopLeft + Edge(15) + TopRight, LeftEdge + text + RightEdge, BottomLeft + Edge(15) + BottomRight]
  {
    assert |text| == 13 && ESC !in text && '\n' !in text;
    assert RED in SgrCodes by { assert RED == SgrCodes[9]; }
    OneLineBorder(text, RED);
  }

  /** A line, an empty line and a longer line: every row is padded to the
      longest, the empty one to all spaces. */
  lemma ThreeLineBorder(a: string, b: string, color: string)
    requires ESC !in a && ESC !in b && '\n' !in a && '\n' !in b && |a| <= |b|
    requires color in SgrCodes
    ensures SplitOn(StripAnsi(Border(a + "\n\n" + b, color)), '\n')
         == [TopLine(|b|), LeftEdge + a + Spaces(|b| - |a|) + RightEdge, LeftEdge + Spaces(|b|) + RightEdge,
             LeftEdge + b + RightEdge, Bottom(|b|)]
  {
    var text := a + "\n\n" + b;
    var w := |b|;
    assert ESC !in text;
    var r0, r1, r2 := LeftEdge + a + Spaces(w - |a|) + RightEdge, LeftEdge + Spaces(w) + RightEdge, LeftEdge + b + RightEdge;
    ThreeBox(a, b, color);
    ThreeRows(a, b);
    Framed(TopLine(w), [r0, r1, r2], Bottom(w));
  }

  lemma ThreeBox(a: string, b: string, color: string)
    requires ESC !in a && ESC !in b && '\n' !in a && '\n' !in b && |a| <= |b|
    requires color in SgrCodes
    ensures forall k :: 0 <= k < 3 ==> |[a, [], b][k]| <= |b|
    ensures SplitOn(StripAnsi(Border(a + "\n\n" + b, color)), '\n') == PlainBox([a, [], b], |b|)
  {
    var text := a + "\n\n" + b;
    assert ESC !in text;
    BorderVisible(text, color);
    ThreeLines(a, b);
    ThreeWidth(a, b);
  }

  lemma ThreeLines(a: string, b: string)
    requires '\n' !in a && '\n' !in b
    ensures SplitOn(a + "\n\n" + b, '\n') == [a, [], b]
  {
    assert a + "\n\n" + b == a + ['\n'] + ([] + ['\n'] + b);
    SplitOnCons(a, [] + ['\n'] + b, '\n');
    SplitOnCons([], b, '\n');
    NoCharNoOccurrence(b, '\n');
  }

  lemma ThreeWidth(a: string, b: string)
    requires ESC !in a && ESC !in b && |a| <= |b|
    ensures MaxWidth([a, [], b]) == |b|
  {
    PlainWidth(a);
    PlainWidth(b);
    PlainWidth([]);
    var lines := [a, [], b];
    assert lines[..2][..1] == [a] && lines[..2] == [a, []] && lines[..1] == [a];
    assert [a][..0] == [];
  }

  lemma ThreeRows(a: string, b: string)
    requires |a| <= |b|
    ensures PlainRows([a, [], b], |b|)
         == [LeftEdge + a + Spaces(|b| - |a|) + RightEdge, LeftEdge + Spaces(|b|) + RightEdge, LeftEdge + b + RightEdge]
  {
    var w := |b|;
    var empty: string := [];
    var lines := [a, empty, b];
    forall k | 0 <= k < |lines| ensures |lines[k]| <= w {
      assert k == 0 || k == 1 || k == 2;
    }
    var rows := PlainRows(lines, w);
    assert |rows| == 3;
    assert rows[0] == PlainRow(lines[0], w) && lines[0] == a;
    assert rows[1] == PlainRow(lines[1], w) && lines[1] == empty;
    assert rows[2] == PlainRow(lines[2], w) && lines[2] == b;
    Three(rows);
    EmptyRow(w);
    FullRow(b);
  }

  lemma Three(s: seq<string>)
    requires |s| == 3
    ensures s == [s[0], s[1], s[2]]
  {
  }

  lemma Framed(x: string, s: seq<string>, y: string)
    requires |s| == 3
    ensures [x] + s + [y] == [x, s[0], s[1], s[2], y]
  {
  }

  lemma EmptyRow(w: nat)
    ensures PlainRow([], w) == LeftEdge + Spaces(w) + RightEdge
  {
    assert LeftEdge + [] == LeftEdge;
  }

  lemma FullRow(b: string)
    ensures PlainRow(b, |b|) == LeftEdge + b + RightEdge
  {
    assert Spaces(0) == [];
    assert LeftEdge + b + [] == LeftEdge + b;
  }

  /** The three-line case: the box is 17 edge characters wide, the first
      line padded by two spaces, the empty one by fifteen. */
  lemma HelloThreeLines(a: string, b: string)
    requires a == "Hello, world!" && b == "This is a test."
    ensures SplitOn(StripAnsi(Border(a + "\n\n" + b, RED)), '\n')
         == [TopLeft + Edge(17) + TopRight, LeftEdge + a + Spaces(2) + RightEdge, LeftEdge + Spaces(15) + RightEdge,
             LeftEdge + b + RightEdge, BottomLeft + Edge(17) + BottomRight]
  {
    assert |a| == 13 && |b| == 15 && ESC !in a && ESC !in b && '\n' !in a && '\n' !in b;
    assert RED in SgrCodes by { assert RED == SgrCodes[9]; }
    ThreeLineBorder(a, b, RED);
  }
}
