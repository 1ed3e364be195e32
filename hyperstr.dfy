/** Terminal styling helpers of `src/util/hyperstr.rs`: the SGR colour
    constants, the line separator `N`, the colour-name table, stripping of
    colour codes and vertical padding of the art. */
module Hyperstr {
  import opened Strings

  /** The escape character that opens every SGR sequence. */
  const ESC: char := '\U{001B}'

  const BLACK: string := "\U{001B}[30m"
  const RED: string := "\U{001B}[31m"
  const GREEN: string := "\U{001B}[32m"
  const YELLOW: string := "\U{001B}[33m"
  const BLUE: string := "\U{001B}[34m"
  const MAGENTA: string := "\U{001B}[35m"
  const CYAN: string := "\U{001B}[36m"
  const WHITE: string := "\U{001B}[37m"
  const RESET: string := "\U{001B}[0m"
  const BOLD: string := "\U{001B}[1m"
  const ITALIC: string := "\U{001B}[3m"
  const UNDERLINE: string := "\U{001B}[4m"
  const BLINK: string := "\U{001B}[5m"
  const REVERSE: string := "\U{001B}[7m"
  const HIDDEN: string := "\U{001B}[8m"
  const CROSSED: string := "\U{001B}[9m"
  const GRAY: string := "\U{001B}[90m"
  const LIGHT_RED: string := "\U{001B}[91m"
  const LIGHT_GREEN: string := "\U{001B}[92m"
  const LIGHT_YELLOW: string := "\U{001B}[93m"
  const LIGHT_BLUE: string := "\U{001B}[94m"
  const LIGHT_MAGENTA: string := "\U{001B}[95m"
  const LIGHT_CYAN: string := "\U{001B}[96m"
  const LIGHT_GRAY: string := "\U{001B}[97m"

  /** The compilation target, which fixes the line separator. */
  datatype Target = Unix | Windows

  /** `N`: "\r\n" on Windows, "\n" elsewhere. Either way `lines` reads it as
      exactly one line break. */
  function N(target: Target): (r: string)
    ensures |r| > 0 && r[|r| - 1] == '\n' && '\n' !in r[..|r| - 1]
    ensures DropCarriageReturn(r[..|r| - 1]) == []
    ensures |r| == 2 <==> target == Windows
  {
    if target == Windows then "\r\n" else "\n"
  }

  /** The sequences `strip_ansi_colors` deletes, in the order of its passes. */
  const SgrCodes: seq<string> := [
    RESET, BOLD, UNDERLINE, REVERSE, BLINK, HIDDEN, CROSSED, ITALIC,
    BLACK, RED, GREEN, YELLOW, BLUE, MAGENTA, CYAN, WHITE,
    GRAY, LIGHT_RED, LIGHT_GREEN, LIGHT_YELLOW, LIGHT_BLUE, LIGHT_MAGENTA, LIGHT_CYAN, LIGHT_GRAY]

  /** The shape of every code: ESC, '[', parameters, and a final 'm' that
      occurs nowhere else; ESC occurs nowhere but at the front. */
  predicate IsSgr(code: string)
  {
    |code| >= 2 && code[0] == ESC && ESC !in code[1..]
    && code[|code| - 1] == 'm' && 'm' !in code[..|code| - 1]
  }

  /** One `replace(code, "")` pass per code, in order. */
  function RemoveEach(s: string, codes: seq<string>): (r: string)
    requires forall c :: c in codes ==> IsSgr(c)
    ensures |r| <= |s|
    decreases |codes|
  {
    if codes == [] then s
    else
      assert codes[0] in codes;
      assert IsSgr(codes[0]);
      RemoveEach(RemoveAll(s, codes[0]), codes[1..])
  }

  /** `strip_ansi_colors`. */
  function StripAnsi(s: string): (r: string)
    ensures |r| <= |s|
  {
    SgrCodesWellFormed();
    RemoveEach(s, SgrCodes)
  }

  /** A piece of styled text: plain characters or one colour code. */
  datatype Segment = Text(text: string) | Style(code: string)

  /** Plain segments hold no escape character; codes come from `codes`. */
  predicate StyledBy(segments: seq<Segment>, codes: seq<string>)
  {
    forall seg :: seg in segments ==>
      match seg
      case Text(t) => ESC !in t
      case Style(c) => c in codes
  }

  /** The text a terminal receives. */
  function Render(segments: seq<Segment>): string
  {
    if segments == [] then []
    else (match segments[0] case Text(t) => t case Style(c) => c) + Render(segments[1..])
  }

  /** The characters a terminal shows. */
  function Visible(segments: seq<Segment>): string
  {
    if segments == [] then []
    else (match segments[0] case Text(t) => t case Style(_) => []) + Visible(segments[1..])
  }

  /** The segments left once every `code` segment is dropped. */
  function Without(segments: seq<Segment>, code: string): (r: seq<Segment>)
    ensures forall k :: 0 <= k < |r| ==> r[k] in segments && r[k] != Style(code)
  {
    if segments == [] then []
    else
      var rest := Without(segments[1..], code);
      (if segments[0] == Style(code) then [] else [segments[0]]) + rest
  }

  /** The eight basic colour names of `colormap`. */
  const BasicNames: seq<string> := ["BLACK", "RED", "GREEN", "YELLOW", "BLUE", "MAGENTA", "CYAN", "WHITE"]

  /** The eight bright colour names, gray first. */
  const LightNames: seq<string> :=
    ["GRAY", "LIGHT_RED", "LIGHT_GREEN", "LIGHT_YELLOW", "LIGHT_BLUE", "LIGHT_MAGENTA", "LIGHT_CYAN", "LIGHT_GRAY"]

  /** The eight style names written out. */
  const StyleNames: seq<string> := ["RESET", "BOLD", "UNDERLINE", "REVERSE", "BLINK", "INVISIBLE", "CROSSED", "ITALIC"]

  /** The abbreviations, in the order of their first insertion ("R" twice
      in the source, once here). */
  const ShortNames: seq<string> := ["R", "B", "U", "BL", "IN", "C", "I"]

  /** The names `colormap` defines, in the order of their first insertion. */
  const ColourNames: seq<string> := BasicNames + LightNames + StyleNames + ShortNames

  /** The codes of the basic colour names, position by position. */
  const BasicCodes: seq<string> := [BLACK, RED, GREEN, YELLOW, BLUE, MAGENTA, CYAN, WHITE]

  /** The codes of the bright colour names. */
  const LightCodes: seq<string> :=
    [GRAY, LIGHT_RED, LIGHT_GREEN, LIGHT_YELLOW, LIGHT_BLUE, LIGHT_MAGENTA, LIGHT_CYAN, LIGHT_GRAY]

  /** The codes of the style names; "INVISIBLE" is HIDDEN. */
  const StyleCodes: seq<string> := [RESET, BOLD, UNDERLINE, REVERSE, BLINK, HIDDEN, CROSSED, ITALIC]

  /** The codes the abbreviations end up with: "R" keeps the value of its
      second insertion, REVERSE. */
  const ShortCodes: seq<string> := [REVERSE, BOLD, UNDERLINE, BLINK, HIDDEN, CROSSED, ITALIC]

  /** The code of each name, position by position with `ColourNames`. */
  const ColourCodes: seq<string> := BasicCodes + LightCodes + StyleCodes + ShortCodes

  /** The four runs of insertions of `colormap`, each as the map it adds. */
  const BasicTable: map<string, string> :=
    map["BLACK" := BLACK, "RED" := RED, "GREEN" := GREEN, "YELLOW" := YELLOW,
        "BLUE" := BLUE, "MAGENTA" := MAGENTA, "CYAN" := CYAN, "WHITE" := WHITE]

  const LightTable: map<string, string> :=
    map["GRAY" := GRAY, "LIGHT_RED" := LIGHT_RED, "LIGHT_GREEN" := LIGHT_GREEN, "LIGHT_YELLOW" := LIGHT_YELLOW,
        "LIGHT_BLUE" := LIGHT_BLUE, "LIGHT_MAGENTA" := LIGHT_MAGENTA, "LIGHT_CYAN" := LIGHT_CYAN, "LIGHT_GRAY" := LIGHT_GRAY]

  const StyleTable: map<string, string> :=
    map["RESET" := RESET, "BOLD" := BOLD, "UNDERLINE" := UNDERLINE, "REVERSE" := REVERSE,
        "BLINK" := BLINK, "INVISIBLE" := HIDDEN, "CROSSED" := CROSSED, "ITALIC" := ITALIC]

  const ShortTable: map<string, string> :=
    map["R" := RESET, "B" := BOLD, "U" := UNDERLINE, "R" := REVERSE,
        "BL" := BLINK, "IN" := HIDDEN, "C" := CROSSED, "I" := ITALIC]

  /** The whole of `colormap`, its 32 insertions in their order. */
  const ColourTable: map<string, string> :=
    map["BLACK" := BLACK, "RED" := RED, "GREEN" := GREEN, "YELLOW" := YELLOW,
        "BLUE" := BLUE, "MAGENTA" := MAGENTA, "CYAN" := CYAN, "WHITE" := WHITE,
        "GRAY" := GRAY, "LIGHT_RED" := LIGHT_RED, "LIGHT_GREEN" := LIGHT_GREEN, "LIGHT_YELLOW" := LIGHT_YELLOW,
        "LIGHT_BLUE" := LIGHT_BLUE, "LIGHT_MAGENTA" := LIGHT_MAGENTA, "LIGHT_CYAN" := LIGHT_CYAN, "LIGHT_GRAY" := LIGHT_GRAY,
        "RESET" := RESET, "BOLD" := BOLD, "UNDERLINE" := UNDERLINE, "REVERSE" := REVERSE,
        "BLINK" := BLINK, "INVISIBLE" := HIDDEN, "CROSSED" := CROSSED, "ITALIC" := ITALIC,
        "R" := RESET, "B" := BOLD, "U" := UNDERLINE, "R" := REVERSE,
        "BL" := BLINK, "IN" := HIDDEN, "C" := CROSSED, "I" := ITALIC]

  /** `table` holds exactly `names`, each with the code at its position. */
  ghost predicate Matches(table: map<string, string>, names: seq<string>, codes: seq<string>)
  {
    |codes| == |names| &&
    (forall k :: k in table <==> k in names) &&
    (forall i :: 0 <= i < |names| ==> names[i] in table && table[names[i]] == codes[i])
  }

  /** `colormap`: every name of `ColourNames` and nothing else, each mapped
      to one of the codes that `strip_ansi_colors` removes. "R" is inserted
      twice and keeps its second value, REVERSE, not RESET. */
  method Colormap() returns (table: map<string, string>)
    ensures table.Keys == set name | name in ColourNames
    ensures forall i :: 0 <= i < |ColourNames| ==> ColourNames[i] in table && table[ColourNames[i]] == ColourCodes[i]
    ensures forall name :: name in table ==> table[name] in SgrCodes
    ensures "R" in table && table["R"] == REVERSE
    ensures "RESET" in table && table["RESET"] == RESET
  {
    table := map[];
    table := table["BLACK" := BLACK];
    table := table["RED" := RED];
    table := table["GREEN" := GREEN];
    table := table["YELLOW" := YELLOW];
    table := table["BLUE" := BLUE];
    table := table["MAGENTA" := MAGENTA];
    table := table["CYAN" := CYAN];
    table := table["WHITE" := WHITE];
    table := table["GRAY" := GRAY];
    table := table["LIGHT_RED" := LIGHT_RED];
    table := table["LIGHT_GREEN" := LIGHT_GREEN];
    table := table["LIGHT_YELLOW" := LIGHT_YELLOW];
    table := table["LIGHT_BLUE" := LIGHT_BLUE];
    table := table["LIGHT_MAGENTA" := LIGHT_MAGENTA];
    table := table["LIGHT_CYAN" := LIGHT_CYAN];
    table := table["LIGHT_GRAY" := LIGHT_GRAY];
    table := table["RESET" := RESET];
    table := table["BOLD" := BOLD];
    table := table["UNDERLINE" := UNDERLINE];
    table := table["REVERSE" := REVERSE];
    table := table["BLINK" := BLINK];
    table := table["INVISIBLE" := HIDDEN];
    table := table["CROSSED" := CROSSED];
    table := table["ITALIC" := ITALIC];
    table := table["R" := RESET];
    table := table["B" := BOLD];
    table := table["U" := UNDERLINE];
    table := table["R" := REVERSE];
    table := table["BL" := BLINK];
    table := table["IN" := HIDDEN];
    table := table["C" := CROSSED];
    table := table["I" := ITALIC];
    assert table == ColourTable;
    ColourTableMatches();
    ColourTableFacts(table);
  }

  /** What `Colormap` promises, about the union of its four runs. */
  lemma ColourTableFacts(table: map<string, string>)
    requires Matches(table, ColourNames, ColourCodes)
    ensures table.Keys == set name | name in ColourNames
    ensures forall i :: 0 <= i < |ColourNames| ==> ColourNames[i] in table && table[ColourNames[i]] == ColourCodes[i]
    ensures forall name :: name in table ==> table[name] in SgrCodes
    ensures "R" in table && table["R"] == REVERSE
    ensures "RESET" in table && table["RESET"] == RESET
  {
    MatchesKeys(table, ColourNames, ColourCodes);
    CodesAreSgr();
    MatchedCodes(table, ColourNames, ColourCodes, SgrCodes);
    ColourAt();
    assert ColourNames[24] in table && table[ColourNames[24]] == ColourCodes[24];
    assert ColourNames[16] in table && table[ColourNames[16]] == ColourCodes[16];
  }

  /** Where "RESET" and "R" sit in `ColourNames`, and their codes. */
  lemma ColourAt()
    ensures ColourNames[16] == "RESET" && ColourCodes[16] == RESET
    ensures ColourNames[24] == "R" && ColourCodes[24] == REVERSE
  {
    assert ColourNames[16] == StyleNames[0];
    assert ColourCodes[16] == StyleCodes[0];
    assert ColourNames[24] == ShortNames[0];
    assert ColourCodes[24] == ShortCodes[0];
  }

  /** `n` lines of 24 spaces each. */
  function Padding(n: nat): (r: string)
    ensures |r| == 25 * n
  {
    RepeatedLength(Spaces(24), n);
    Repeated(Spaces(24), n)
  }

  /** `n` copies of `line`, each ended by a line break. */
  function Repeated(line: string, n: nat): string
  {
    if n == 0 then [] else line + "\n" + Repeated(line, n - 1)
  }

  lemma {:induction false} RepeatedLength(line: string, n: nat)
    ensures |Repeated(line, n)| == n * (|line| + 1)
  {
    if n > 0 {
      RepeatedLength(line, n - 1);
    }
  }

  /** `ascii_check`: when centring is on and the fetch text is taller than
      the art, appends half the difference in blank lines of 24 spaces; the
      art itself is kept as it was. */
  method AsciiCheck(center: bool, art: string, fetchLines: nat, artLines: nat) returns (r: string)
    ensures r == art + Padding(if center && fetchLines > artLines then (fetchLines - artLines) / 2 else 0)
  {
    r := art;
    if center && fetchLines > artLines {
      var diff := (fetchLines - artLines) / 2;
      for k := 0 to diff
        invariant r == art + Padding(k)
      {
        RepeatedSnoc(Spaces(24), k);
        r := r + Spaces(24);
        r := r + ['\n'];
      }
    }
  }

  // ---------------------------------------------------------------------
  // Lemmas

  /** The four runs together give every name its code: no run overwrites a
      name of an earlier one. */
  lemma ColourTableMatches()
    ensures Matches(ColourTable, ColourNames, ColourCodes)
  {
    ColourTableUnion();
    GroupTables();
    GroupsApart();
    NameLengths();
    LengthApart(BasicNames + LightNames + StyleNames, ShortNames);
    ApartConcat(BasicNames, LightNames, StyleNames);
    Layered(BasicTable, LightTable, BasicNames, BasicCodes, LightNames, LightCodes);
    Layered(BasicTable + LightTable, StyleTable, BasicNames + LightNames, BasicCodes + LightCodes, StyleNames, StyleCodes);
    Layered(BasicTable + LightTable + StyleTable, ShortTable,
      BasicNames + LightNames + StyleNames, BasicCodes + LightCodes + StyleCodes, ShortNames, ShortCodes);
  }

  /** The 32 insertions are the four runs, each over the ones before. */
  lemma ColourTableUnion()
    ensures ColourTable == BasicTable + LightTable + StyleTable + ShortTable
  {
    LightRun(BasicTable);
    StyleRun(BasicTable + LightTable);
    ShortRun(BasicTable + LightTable + StyleTable);
  }

  lemma LightRun(m: map<string, string>)
    ensures m["GRAY" := GRAY]["LIGHT_RED" := LIGHT_RED]["LIGHT_GREEN" := LIGHT_GREEN]["LIGHT_YELLOW" := LIGHT_YELLOW]
             ["LIGHT_BLUE" := LIGHT_BLUE]["LIGHT_MAGENTA" := LIGHT_MAGENTA]["LIGHT_CYAN" := LIGHT_CYAN]["LIGHT_GRAY" := LIGHT_GRAY]
            == m + LightTable
  {
  }

  lemma StyleRun(m: map<string, string>)
    ensures m["RESET" := RESET]["BOLD" := BOLD]["UNDERLINE" := UNDERLINE]["REVERSE" := REVERSE]
             ["BLINK" := BLINK]["INVISIBLE" := HIDDEN]["CROSSED" := CROSSED]["ITALIC" := ITALIC]
            == m + StyleTable
  {
  }

  lemma ShortRun(m: map<string, string>)
    ensures m["R" := RESET]["B" := BOLD]["U" := UNDERLINE]["R" := REVERSE]
             ["BL" := BLINK]["IN" := HIDDEN]["C" := CROSSED]["I" := ITALIC]
            == m + ShortTable
  {
  }

  /** Each run of insertions, on its own. */
  lemma GroupTables()
    ensures Matches(BasicTable, BasicNames, BasicCodes)
    ensures Matches(LightTable, LightNames, LightCodes)
    ensures Matches(StyleTable, StyleNames, StyleCodes)
    ensures Matches(ShortTable, ShortNames, ShortCodes)
  {
    BasicTableMatches();
    LightTableMatches();
    StyleTableMatches();
    ShortTableMatches();
  }

  lemma BasicTableMatches()
    ensures Matches(BasicTable, BasicNames, BasicCodes)
  {
  }

  lemma LightTableMatches()
    ensures Matches(LightTable, LightNames, LightCodes)
  {
  }

  lemma StyleTableMatches()
    ensures Matches(StyleTable, StyleNames, StyleCodes)
  {
  }

  lemma ShortTableMatches()
    ensures Matches(ShortTable, ShortNames, ShortCodes)
  {
  }

  /** A later run that shares no name with an earlier one keeps the
      earlier codes and adds its own. */
  lemma Layered(lower: map<string, string>, upper: map<string, string>,
                lowNames: seq<string>, lowCodes: seq<string>, upNames: seq<string>, upCodes: seq<string>)
    requires Matches(lower, lowNames, lowCodes) && Matches(upper, upNames, upCodes)
    requires forall x, y :: x in lowNames && y in upNames ==> x != y
    ensures Matches(lower + upper, lowNames + upNames, lowCodes + upCodes)
  {
    var names, codes := lowNames + upNames, lowCodes + upCodes;
    forall i | 0 <= i < |names| ensures names[i] in lower + upper && (lower + upper)[names[i]] == codes[i] {
      if i < |lowNames| {
        assert names[i] == lowNames[i] && codes[i] == lowCodes[i];
        assert names[i] !in upper;
      } else {
        assert names[i] == upNames[i - |lowNames|] && codes[i] == upCodes[i - |lowNames|];
      }
    }
    forall k ensures k in lower + upper <==> k in names {
      if k in lowNames {
        var i :| 0 <= i < |lowNames| && lowNames[i] == k;
        assert names[i] == k;
      }
      if k in upNames {
        var i :| 0 <= i < |upNames| && upNames[i] == k;
        assert names[|lowNames| + i] == k;
      }
    }
  }

  lemma MatchedCodes(table: map<string, string>, names: seq<string>, codes: seq<string>, pool: seq<string>)
    requires Matches(table, names, codes)
    requires forall i :: 0 <= i < |codes| ==> codes[i] in pool
    ensures forall name :: name in table ==> table[name] in pool
  {
    forall name | name in table ensures table[name] in pool {
      var i :| 0 <= i < |names| && names[i] == name;
    }
  }

  lemma MatchesKeys(table: map<string, string>, names: seq<string>, codes: seq<string>)
    requires Matches(table, names, codes)
    ensures table.Keys == set name | name in names
  {
  }

  /** Every code of the table is one that `strip_ansi_colors` removes. */
  lemma CodesAreSgr()
    ensures forall i :: 0 <= i < |ColourCodes| ==> ColourCodes[i] in SgrCodes
  {
  }

  /** The colour table has 31 distinct names. */
  lemma ColourNamesCount()
    ensures |set name | name in ColourNames| == 31
  {
    GroupsDistinct();
    GroupsApart();
    NameLengths();
    LengthApart(BasicNames + LightNames + StyleNames, ShortNames);
    DistinctConcat(BasicNames, LightNames);
    ApartConcat(BasicNames, LightNames, StyleNames);
    DistinctConcat(BasicNames + LightNames, StyleNames);
    DistinctConcat(BasicNames + LightNames + StyleNames, ShortNames);
    DistinctCardinality(ColourNames);
  }

  lemma GroupsDistinct()
    ensures Distinct(BasicNames) && Distinct(LightNames) && Distinct(StyleNames) && Distinct(ShortNames)
  {
  }

  /** The full names of different groups differ. */
  lemma GroupsApart()
    ensures forall x, y :: x in BasicNames && y in LightNames ==> x != y
    ensures forall x, y :: x in BasicNames && y in StyleNames ==> x != y
    ensures forall x, y :: x in LightNames && y in StyleNames ==> x != y
  {
  }

  /** Every full name has at least three letters, every abbreviation at
      most two. */
  lemma NameLengths()
    ensures forall i :: 0 <= i < |BasicNames| ==> |BasicNames[i]| >= 3
    ensures forall i :: 0 <= i < |LightNames| ==> |LightNames[i]| >= 3
    ensures forall i :: 0 <= i < |StyleNames| ==> |StyleNames[i]| >= 3
    ensures forall i :: 0 <= i < |ShortNames| ==> |ShortNames[i]| <= 2
  {
  }

  /** Names of different lengths are different names. */
  lemma LengthApart(long: seq<string>, short: seq<string>)
    requires forall i :: 0 <= i < |long| ==> |long[i]| >= 3
    requires forall i :: 0 <= i < |short| ==> |short[i]| <= 2
    ensures forall x, y :: x in long && y in short ==> x != y
  {
  }

  lemma ApartConcat(a1: seq<string>, a2: seq<string>, b: seq<string>)
    requires forall x, y :: x in a1 && y in b ==> x != y
    requires forall x, y :: x in a2 && y in b ==> x != y
    ensures forall x, y :: x in a1 + a2 && y in b ==> x != y
  {
  }

  /** No name occurs twice. */
  predicate Distinct(names: seq<string>)
  {
    forall i, j :: 0 <= i < j < |names| ==> names[i] != names[j]
  }

  lemma DistinctConcat(a: seq<string>, b: seq<string>)
    requires Distinct(a) && Distinct(b)
    requires forall x, y :: x in a && y in b ==> x != y
    ensures Distinct(a + b)
  {
    forall i, j | 0 <= i < j < |a + b| ensures (a + b)[i] != (a + b)[j] {
      if j >= |a| && i < |a| {
        assert (a + b)[i] in a && (a + b)[j] in b;
      }
    }
  }

  /** A sequence without repeats has as many elements as its set. */
  lemma {:induction false} DistinctCardinality(names: seq<string>)
    requires forall i, j :: 0 <= i < j < |names| ==> names[i] != names[j]
    ensures |set name | name in names| == |names|
    decreases |names|
  {
    if names != [] {
      var rest := names[1..];
      DistinctCardinality(rest);
      assert (set name | name in names) == {names[0]} + (set name | name in rest);
      assert names[0] !in rest;
    }
  }

  lemma SgrCodesWellFormed()
    ensures forall c :: c in SgrCodes ==> IsSgr(c)
  {
    SgrStyles();
    SgrColours();
    SgrLightColours();
    assert SgrCodes == SgrCodes[..8] + SgrCodes[8..16] + SgrCodes[16..];
  }

  lemma SgrStyles()
    ensures forall c :: c in SgrCodes[..8] ==> IsSgr(c)
  {
  }

  lemma SgrColours()
    ensures forall c :: c in SgrCodes[8..16] ==> IsSgr(c)
  {
  }

  lemma SgrLightColours()
    ensures forall c :: c in SgrCodes[16..] ==> IsSgr(c)
  {
  }

  /** `lines` reads the separator as one line break on every target. */
  lemma LinesN(a: string, b: string, target: Target)
    requires '\n' !in a && (a == [] || a[|a| - 1] != '\r')
    ensures Lines(a + N(target) + b) == [a] + Lines(b)
  {
    var n := N(target);
    if target == Windows {
      assert a + n + b == (a + "\r") + "\n" + b;
      LinesCons(a + "\r", b);
      assert (a + "\r")[..|a|] == a;
    } else {
      LinesCons(a, b);
    }
  }

  /** The padding reads back as `n` lines of 24 spaces. */
  lemma PaddingLines(n: nat)
    ensures |Lines(Padding(n))| == n
    ensures forall i :: 0 <= i < n ==> Lines(Padding(n))[i] == Spaces(24)
  {
    BlankLine();
    RepeatedLines(Spaces(24), n);
    CopiesAll(Spaces(24), n);
  }

  /** A line of 24 spaces has no line break and no carriage return. */
  lemma BlankLine()
    ensures '\n' !in Spaces(24) && DropCarriageReturn(Spaces(24)) == Spaces(24)
  {
    assert Spaces(24)[23] == ' ';
  }

  /** `n` times the same line, as a sequence of lines. */
  function Copies(line: string, n: nat): seq<string>
  {
    if n == 0 then [] else [line] + Copies(line, n - 1)
  }

  lemma {:induction false} CopiesAll(line: string, n: nat)
    ensures |Copies(line, n)| == n
    ensures forall i :: 0 <= i < n ==> Copies(line, n)[i] == line
  {
    if n > 0 {
      CopiesAll(line, n - 1);
    }
  }

  /** Repeated lines read back one by one. */
  lemma {:induction false} RepeatedLines(line: string, n: nat)
    requires '\n' !in line && DropCarriageReturn(line) == line
    ensures Lines(Repeated(line, n)) == Copies(line, n)
  {
    if n > 0 {
      RepeatedLines(line, n - 1);
      LinesCons(line, Repeated(line, n - 1));
    }
  }

  /** One more line appended at the end. */
  lemma {:induction false} RepeatedSnoc(line: string, n: nat)
    ensures Repeated(line, n) + line + "\n" == Repeated(line, n + 1)
  {
    if n > 0 {
      RepeatedSnoc(line, n - 1);
    }
  }

  /** `replace` skips plain text that holds no escape character. */
  lemma {:induction false} RemoveAllPlain(t: string, rest: string, p: string)
    requires ESC !in t && IsSgr(p)
    ensures RemoveAll(t + rest, p) == t + RemoveAll(rest, p)
    decreases |t|
  {
    if t == [] {
      assert t + rest == rest;
    } else {
      var s := t + rest;
      if |s| >= |p| {
        assert s[..|p|][0] == t[0] != p[0];
        RemoveAllKeep(s, p);
        assert s[1..] == t[1..] + rest;
        RemoveAllPlain(t[1..], rest, p);
        assert t == [t[0]] + t[1..];
      } else {
        assert RemoveAll(rest, p) == rest;
      }
    }
  }

  /** `replace(p, "")` deletes an occurrence of `p` at the front. */
  lemma RemoveAllSelf(p: string, rest: string)
    requires IsSgr(p)
    ensures RemoveAll(p + rest, p) == RemoveAll(rest, p)
  {
    assert (p + rest)[..|p|] == p;
    assert (p + rest)[|p|..] == rest;
  }

  /** No code is a prefix of a different code. */
  lemma SgrPrefixFree(c: string, p: string, rest: string)
    requires IsSgr(c) && IsSgr(p) && c != p
    ensures |c + rest| >= |p| ==> (c + rest)[..|p|] != p
  {
    var s := c + rest;
    if |s| >= |p| {
      if |p| == |c| {
        assert s[..|p|] == c;
      } else if |p| < |c| {
        assert c[..|c| - 1][|p| - 1] == c[|p| - 1];
        assert s[..|p|][|p| - 1] != p[|p| - 1];
      } else {
        assert p[..|p| - 1][|c| - 1] == p[|c| - 1];
        assert s[..|p|][|c| - 1] != p[|c| - 1];
      }
    }
  }

  /** ...and steps over any other code. */
  lemma RemoveAllOther(c: string, rest: string, p: string)
    requires IsSgr(c) && IsSgr(p) && c != p
    ensures RemoveAll(c + rest, p) == c + RemoveAll(rest, p)
  {
    SgrPrefixFree(c, p, rest);
    if |c + rest| >= |p| {
      RemoveAllPlain(c[1..], rest, p);
      StepOver(c, rest, p);
    } else {
      assert RemoveAll(c + rest, p) == c + rest;
      assert RemoveAll(rest, p) == rest;
    }
  }

  /** A piece that does not start an occurrence of `p`, and whose tail
      holds none either, is kept whole. */
  lemma StepOver(c: string, rest: string, p: string)
    requires c != [] && |p| > 0
    requires |c + rest| >= |p| && (c + rest)[..|p|] != p
    requires RemoveAll(c[1..] + rest, p) == c[1..] + RemoveAll(rest, p)
    ensures RemoveAll(c + rest, p) == c + RemoveAll(rest, p)
  {
    var s := c + rest;
    RemoveAllKeep(s, p);
    HeadTail(c, rest);
    ConsAppend(c, RemoveAll(rest, p));
  }

  /** The head and tail of `c + rest`, for a non-empty `c`. */
  lemma HeadTail(c: string, rest: string)
    requires c != []
    ensures (c + rest)[0] == c[0] && (c + rest)[1..] == c[1..] + rest
  {
  }

  /** Putting the head back in front of the tail and a suffix. */
  lemma ConsAppend(c: string, r: string)
    requires c != []
    ensures [c[0]] + (c[1..] + r) == c + r
  {
    AppendAssoc([c[0]], c[1..], r);
    assert [c[0]] + c[1..] == c;
  }

  /** One pass deletes exactly the segments of its code. */
  lemma {:induction false} RemovePass(segments: seq<Segment>, codes: seq<string>, p: string)
    requires StyledBy(segments, codes) && IsSgr(p)
    requires forall c :: c in codes ==> IsSgr(c)
    ensures RemoveAll(Render(segments), p) == Render(Without(segments, p))
    decreases |segments|
  {
    if segments != [] {
      assert forall seg :: seg in segments[1..] ==> seg in segments;
      assert segments[0] in segments;
      RemovePass(segments[1..], codes, p);
      var rest := Render(segments[1..]);
      match segments[0]
      case Text(t) =>
        RemoveAllPlain(t, rest, p);
      case Style(c) =>
        if c == p {
          RemoveAllSelf(p, rest);
          assert Without(segments, p) == Without(segments[1..], p);
        } else {
          RemoveAllOther(c, rest, p);
          assert Without(segments, p) == [segments[0]] + Without(segments[1..], p);
          assert Render([segments[0]] + Without(segments[1..], p)) == c + Render(Without(segments[1..], p));
        }
    }
  }

  lemma {:induction false} WithoutVisible(segments: seq<Segment>, p: string)
    ensures Visible(Without(segments, p)) == Visible(segments)
    decreases |segments|
  {
    if segments != [] {
      WithoutVisible(segments[1..], p);
      var rest := Without(segments[1..], p);
      if segments[0] == Style(p) {
        assert Without(segments, p) == rest;
      } else {
        assert Without(segments, p) == [segments[0]] + rest;
        assert ([segments[0]] + rest)[1..] == rest;
      }
    }
  }

  lemma {:induction false} RenderPlain(segments: seq<Segment>)
    requires StyledBy(segments, [])
    ensures Render(segments) == Visible(segments)
    decreases |segments|
  {
    if segments != [] {
      assert segments[0] in segments;
      assert forall seg :: seg in segments[1..] ==> seg in segments;
      RenderPlain(segments[1..]);
    }
  }

  /** The passes over `codes`, in order, leave the visible text. */
  lemma {:induction false} RemoveEachVisible(segments: seq<Segment>, codes: seq<string>)
    requires StyledBy(segments, codes)
    requires forall c :: c in codes ==> IsSgr(c)
    ensures RemoveEach(Render(segments), codes) == Visible(segments)
    decreases |codes|
  {
    if codes == [] {
      RenderPlain(segments);
    } else {
      var p, left := codes[0], Without(segments, codes[0]);
      assert StyledBy(left, codes[1..]) by {
        forall seg | seg in left
          ensures match seg case Text(t) => ESC !in t case Style(c) => c in codes[1..]
        {
          assert seg in segments;
          if seg.Style? {
            assert seg.code in codes && seg.code != p;
            assert codes == [p] + codes[1..];
          }
        }
      }
      assert forall c :: c in codes[1..] ==> IsSgr(c) by {
        forall c | c in codes[1..] ensures IsSgr(c) { assert c in codes; }
      }
      assert RemoveEach(Render(segments), codes) == RemoveEach(RemoveAll(Render(segments), p), codes[1..]) by {
        assert p in codes;
      }
      RemovePass(segments, codes, p);
      RemoveEachVisible(left, codes[1..]);
      WithoutVisible(segments, p);
    }
  }

  /** Styled text put together from two pieces styled by `codes` is styled by `codes`. */
  lemma StyledByAppend(a: seq<Segment>, b: seq<Segment>, codes: seq<string>)
    requires StyledBy(a, codes) && StyledBy(b, codes)
    ensures StyledBy(a + b, codes)
  {
    forall seg | seg in a + b
      ensures match seg case Text(t) => ESC !in t case Style(c) => c in codes
    {
      assert seg in a || seg in b;
    }
  }

  /** `strip_ansi_colors` turns styled text into the characters it shows. */
  lemma StripAnsiVisible(segments: seq<Segment>)
    requires StyledBy(segments, SgrCodes)
    ensures StripAnsi(Render(segments)) == Visible(segments)
  {
    SgrCodesWellFormed();
    RemoveEachVisible(segments, SgrCodes);
  }

  lemma {:induction false} RenderAppend(a: seq<Segment>, b: seq<Segment>)
    ensures Render(a + b) == Render(a) + Render(b)
    decreases |a|
  {
    if a == [] {
      assert a + b == b;
    } else {
      assert (a + b)[1..] == a[1..] + b;
      RenderAppend(a[1..], b);
    }
  }

  lemma {:induction false} VisibleAppend(a: seq<Segment>, b: seq<Segment>)
    ensures Visible(a + b) == Visible(a) + Visible(b)
    decreases |a|
  {
    if a == [] {
      assert a + b == b;
    } else {
      assert (a + b)[1..] == a[1..] + b;
      VisibleAppend(a[1..], b);
    }
  }

  /** Text without an escape character is returned unchanged. */
  lemma StripAnsiPlain(s: string)
    requires ESC !in s
    ensures StripAnsi(s) == s
  {
    var segments := [Text(s)];
    assert segments[1..] == [];
    assert Render(segments) == s + Render([]) == s;
    assert Visible(segments) == s + Visible([]) == s;
    StripAnsiVisible(segments);
  }

  /** Every code in the colour table is invisible. */
  lemma StripAnsiCode(code: string)
    requires code in SgrCodes
    ensures StripAnsi(code) == []
  {
    var segments := [Style(code)];
    assert segments[1..] == [];
    assert Render(segments) == code + Render([]) == code;
    assert Visible(segments) == [] + Visible([]) == [];
    StripAnsiVisible(segments);
  }

  /** The documented example. */
  /** Text wrapped in two codes, as a colour and its reset, comes out of
      `strip_ansi_colors` with both codes gone. */
  lemma StripAnsiWrapped(a: string, c1: string, b: string, c2: string, d: string)
    requires ESC !in a && ESC !in b && ESC !in d
    requires c1 in SgrCodes && c2 in SgrCodes
    ensures StripAnsi(a + c1 + b + c2 + d) == a + b + d
  {
    var segments := [Text(a), Style(c1), Text(b), Style(c2), Text(d)];
    WrappedRender(segments, a, c1, b, c2, d);
    WrappedVisible(segments, a, c1, b, c2, d);
    assert StyledBy(segments, SgrCodes);
    StripAnsiVisible(segments);
  }

  lemma WrappedRender(segments: seq<Segment>, a: string, c1: string, b: string, c2: string, d: string)
    requires segments == [Text(a), Style(c1), Text(b), Style(c2), Text(d)]
    ensures Render(segments) == a + c1 + b + c2 + d
  {
    assert segments[1..][1..][1..][1..][1..] == [];
    assert Render(segments[1..][1..][1..][1..]) == d + [];
    assert Render(segments[1..][1..]) == b + (c2 + (d + []));
    assert a + (c1 + (b + (c2 + (d + [])))) == a + c1 + b + c2 + d;
  }

  lemma WrappedVisible(segments: seq<Segment>, a: string, c1: string, b: string, c2: string, d: string)
    requires segments == [Text(a), Style(c1), Text(b), Style(c2), Text(d)]
    ensures Visible(segments) == a + b + d
  {
    assert segments[1..][1..][1..][1..][1..] == [];
    assert Visible(segments[1..][1..][1..][1..]) == d + [];
    assert Visible(segments[1..][1..]) == b + ([] + (d + []));
    assert a + ([] + (b + ([] + (d + [])))) == a + b + d;
  }
}
