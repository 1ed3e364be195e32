/** The layouts exercised by the tests of `src/builder/mod.rs`, derived
    from general facts about two-column layouts. */
module BuilderExamples {
  import opened Strings
  import opened Builder

  /** The spaces an item of a padded column is followed by. */
  function Pad(x: string, tabsize: nat): (r: string)
    ensures |x| < tabsize ==> r == Spaces(tabsize - |x|)
    ensures |x| >= tabsize ==> r == ""
  {
    if |x| < tabsize then Spaces(tabsize - |x|) else ""
  }

  /** The first of two columns is padded. */
  lemma FirstCell(b: Builder, i: nat)
    requires |b.inner| == 2
    ensures Cell(b, 0, i) == Item(b.inner[0], i) + Pad(Item(b.inner[0], i), b.tabsize)
  {
    InnerColumnsPadded(b, 0);
  }

  /** The second of two different columns is not. */
  lemma SecondCell(b: Builder, i: nat)
    requires |b.inner| == 2 && b.inner[0] != b.inner[1]
    ensures Cell(b, 1, i) == Item(b.inner[1], i)
  {
    assert Position(b.inner, b.inner[1]) == Some(1);
  }

  /** A row of two different columns: the first item padded, the second not. */
  lemma TwoColumnRow(b: Builder, i: nat)
    requires |b.inner| == 2 && b.inner[0] != b.inner[1]
    ensures Row(b, i) == Item(b.inner[0], i) + Pad(Item(b.inner[0], i), b.tabsize) + Item(b.inner[1], i)
  {
    FirstCell(b, i);
    SecondCell(b, i);
    LineSnoc(b, i, 0);
    LineSnoc(b, i, 1);
  }

  /** Three rows, each followed by a line end. */
  lemma TerminatedThree(xs: seq<string>, c: char)
    requires |xs| == 3
    ensures Terminated(xs, c) == xs[0] + [c] + xs[1] + [c] + xs[2] + [c]
  {
    var two := xs[..2];
    assert two[..1][..0] == [];
    assert Terminated(two[..1], c) == two[0] + [c];
    assert Terminated(two, c) == Terminated(two[..1], c) + two[1] + [c];
    assert Terminated(xs, c) == Terminated(two, c) + xs[2] + [c];
  }

  /** A two-column, three-row layout prints its three rows. */
  lemma ThreeRows(b: Builder)
    requires b.largest == 3
    ensures Output(b) == Row(b, 0) + "\n" + Row(b, 1) + "\n" + Row(b, 2) + "\n"
  {
    TerminatedThree(Rows(b), '\n');
  }

  /** The layout `from` builds for the test columns: tab width 4, three rows. */
  lemma TestLayout(f: seq<seq<string>>)
    requires f == [["a", "b", "c"], ["d", "e", "f"]]
    ensures Layout(f) == Builder(false, f, 4, 3)
  {
    assert Tallest(f[..1]) == 3;
    assert WidestItem(f[0]) == 1 && WidestItem(f[1]) == 1;
    assert Widest(f[..1]) == 1;
  }

  /** Row `i` of the test columns under tab width `t`. */
  lemma TestRow(f: seq<seq<string>>, t: nat, i: nat)
    requires f == [["a", "b", "c"], ["d", "e", "f"]] && i < 3
    ensures Row(Builder(false, f, t, 3), i) == [f[0][i][0]] + Pad(f[0][i], t) + [f[1][i][0]]
  {
    TwoColumnRow(Builder(false, f, t, 3), i);
  }

  /** The rows of the test columns under tab width 4. */
  lemma TabFourRows(f: seq<seq<string>>)
    requires f == [["a", "b", "c"], ["d", "e", "f"]]
    ensures var b := Builder(false, f, 4, 3);
            Row(b, 0) == "a   d" && Row(b, 1) == "b   e" && Row(b, 2) == "c   f"
  {
    TestRow(f, 4, 0);
    TestRow(f, 4, 1);
    TestRow(f, 4, 2);
    assert Spaces(3) == "   ";
  }

  /** test_builder: "a   d\nb   e\nc   f\n". */
  lemma TestBuilder(f: seq<seq<string>>)
    requires f == [["a", "b", "c"], ["d", "e", "f"]]
    ensures Output(Layout(f)) == "a   d\nb   e\nc   f\n"
  {
    TestLayout(f);
    TabFourRows(f);
    TabFourOutput(Layout(f));
  }

  lemma TabFourOutput(b: Builder)
    requires b.largest == 3 && Row(b, 0) == "a   d" && Row(b, 1) == "b   e" && Row(b, 2) == "c   f"
    ensures Output(b) == "a   d\nb   e\nc   f\n"
  {
    ThreeRows(b);
  }

  /** The rows of the test columns under tab width 10. */
  lemma TabTenRows(f: seq<seq<string>>)
    requires f == [["a", "b", "c"], ["d", "e", "f"]]
    ensures var b := Builder(false, f, 10, 3);
            Row(b, 0) == "a         d" && Row(b, 1) == "b         e" && Row(b, 2) == "c         f"
  {
    TestRow(f, 10, 0);
    TestRow(f, 10, 1);
    TestRow(f, 10, 2);
    assert Spaces(9) == "         ";
  }

  /** test_tabsize: with `set_tab(10)` the first column is ten wide. */
  lemma TestTabsize(f: seq<seq<string>>)
    requires f == [["a", "b", "c"], ["d", "e", "f"]]
    ensures Output(SetTab(Layout(f), 10)) == "a         d\nb         e\nc         f\n"
  {
    TestLayout(f);
    TabTenRows(f);
    TabTenOutput(SetTab(Layout(f), 10));
  }

  lemma TabTenOutput(b: Builder)
    requires b.largest == 3
    requires Row(b, 0) == "a         d" && Row(b, 1) == "b         e" && Row(b, 2) == "c         f"
    ensures Output(b) == "a         d\nb         e\nc         f\n"
  {
    ThreeRows(b);
  }

  /** The rows of the test columns under tab width 0. */
  lemma TabZeroRows(f: seq<seq<string>>)
    requires f == [["a", "b", "c"], ["d", "e", "f"]]
    ensures var b := Builder(false, f, 0, 3);
            Row(b, 0) == "ad" && Row(b, 1) == "be" && Row(b, 2) == "cf"
  {
    TestRow(f, 0, 0);
    TestRow(f, 0, 1);
    TestRow(f, 0, 2);
  }

  /** test_tabsize_zero: with `set_tab(0)` the items run together. */
  lemma TestTabsizeZero(f: seq<seq<string>>)
    requires f == [["a", "b", "c"], ["d", "e", "f"]]
    ensures Output(SetTab(Layout(f), 0)) == "ad\nbe\ncf\n"
  {
    TestLayout(f);
    TabZeroRows(f);
    TabZeroOutput(SetTab(Layout(f), 0));
  }

  lemma TabZeroOutput(b: Builder)
    requires b.largest == 3 && Row(b, 0) == "ad" && Row(b, 1) == "be" && Row(b, 2) == "cf"
    ensures Output(b) == "ad\nbe\ncf\n"
  {
    ThreeRows(b);
  }

  /** The rows of the swapped test columns under tab width 10. */
  lemma SwappedRows(f: seq<seq<string>>)
    requires f == [["d", "e", "f"], ["a", "b", "c"]]
    ensures var b := Builder(false, f, 10, 3);
            Row(b, 0) == "d         a" && Row(b, 1) == "e         b" && Row(b, 2) == "f         c"
  {
    var b := Builder(false, f, 10, 3);
    TwoColumnRow(b, 0);
    TwoColumnRow(b, 1);
    TwoColumnRow(b, 2);
    assert Spaces(9) == "         ";
  }

  /** test_swap: `set_tab(10)` then `swap(true)` puts the second column first. */
  lemma TestSwap(f: seq<seq<string>>)
    requires f == [["a", "b", "c"], ["d", "e", "f"]]
    ensures Output(Swap(SetTab(Layout(f), 10), true)) == "d         a\ne         b\nf         c\n"
  {
    TestLayout(f);
    var b := Swap(SetTab(Layout(f), 10), true);
    assert b.inner == [f[1], f[0]];
    SwappedRows(b.inner);
    SwappedOutput(b);
  }

  lemma SwappedOutput(b: Builder)
    requires b.largest == 3
    requires Row(b, 0) == "d         a" && Row(b, 1) == "e         b" && Row(b, 2) == "f         c"
    ensures Output(b) == "d         a\ne         b\nf         c\n"
  {
    ThreeRows(b);
  }
}
